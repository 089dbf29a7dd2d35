# Multicast service discovery, modelled in Dafny

A model of the `multicast-service-discovery` library (`index.js`): nodes on a
local network find each other over IPv6 multicast. A *discoverer* broadcasts
DISCOVER every minute, keeps a table of the peers it hears from and evicts
peers not heard from for two minutes. An *instance* holds its own host
record `{url, id}`, ANNOUNCEs it when its socket starts listening, answers
every DISCOVER with a unicast ANNOUNCE, and sends LOGOFF before the process
exits. Every node joins one multicast group, whose address is derived from a
14-byte group ID; all traffic except the unicast replies to DISCOVER goes to
that group.

The model is split as the library is:

- `values.dfy` (`Values`): the JavaScript values the library handles — what
  the msgpack decoder returns, what callers pass as group ID and host record —
  and the UTF-16 `length` of a string.
- `errors.dfy` (`Errors`): `MSDInvalidGroupIDError` and `MSDValidationError`.
- `address.dfy` (`Address`): the group-ID check and the 16-byte address
  FF 02 ‖ group ID (section 2.7 of RFC 4291), built with `Buffer.concat`
  semantics.
- `wire.dfy` (`Wire`): the two JSON Type Definition schemas (RFC 8927) as
  predicates, the typed `Packet` they describe, and the packet shapes the
  roles send.
- `session.dfy` (`Session`): the shared receive pipeline (decode, then
  schema check) and the destination of a send.
- `discoverer.dfy` (`DiscovererRole`): the discoverer as a class whose peer
  table is a `map` field updated in place, with the message handler's
  `switch` modelled as JavaScript runs it.
- `instance.dfy` (`InstanceRole`): the instance as a class, its construction
  checks in order, and its sends as an appended log of datagrams.
- `exchange.dfy` (`Exchange`): the two roles talking to each other.

The clock is an explicit `now` argument in milliseconds; the timers and the
process-exit hook are explicit method calls; the msgpack decoder and the
`is-url` predicate are function parameters.

Behaviour of the code worth knowing:

- LOGOFF does not remove a peer. The handler's `switch` repeats the labels
  ANNOUNCE and LOGOFF (index.js:180-195). JavaScript enters the first clause
  whose label matches and falls through until `break`, so a LOGOFF enters at
  the second clause, passes the null-host check, falls into the `set` of the
  third clause and breaks. The `delete` in the fourth clause (index.js:195),
  evidently written to remove the peer, is unreachable. A LOGOFF therefore
  refreshes the peer exactly as an ANNOUNCE does, and a LOGOFF for an unknown
  id inserts it (`LogoffActsAsAnnounce`, `SwitchEntry`, `LogoffKeepsPeer`).
  The model follows the code as written.
- The packet schema does not tie the host to the type: it accepts any type
  code 0..255 with either a null host or a host record, so a DISCOVER that
  carries a host is accepted and answered.
- An instance's construction runs the base constructor first, which creates
  the socket, wires its events and asks it to bind (index.js:78-83), and only
  then checks the host record (index.js:207-213).
- The errors of a failed host-schema check are the schema engine's own error
  list; the other two checks throw a one-message list.

## Model

| member | source | states |
|---|---|---|
| Values.Utf16Length | index.js:212 | a string's `length` lies between its character count and twice that |
| Values.Utf16LengthOfBmp | index.js:212 | for text in the Basic Multilingual Plane `length` equals the character count |
| Values.Utf16LengthBeyondBmp | index.js:212 | one character beyond the Basic Multilingual Plane makes `length` exceed the character count |
| Address.IsGroupId | index.js:65 | the group ID must be a Buffer of exactly 112 / 8 = 14 bytes (definition) |
| Address.MulticastAddress | index.js:70 | the address is `Buffer.concat` of the prefix FF 02 and the group ID, cut to 128 / 8 = 16 bytes (definition; its layout is `AddressLayout`) |
| Address.Concat | index.js:70 | `Buffer.concat` with a total length: exactly that many bytes, the list's bytes in order, zero past their end |
| Address.AddressLayout | index.js:65-71 | the address is 16 bytes: FF 02 and then exactly the 14 group-ID bytes |
| Address.AddressInjective | index.js:65-71 | two group IDs give the same address if and only if they are equal |
| Address.AddressFields | index.js:48 | the address has prefix FF, flags 0 and scope 2 (link-local) |
| Address.DeriveAddress | index.js:64-71 | fails with the invalid-group-ID error exactly when the input is not a 14-byte Buffer; otherwise FF 02 ‖ group ID |
| Address.SampleAddress | tests/test1.js:3 | the sample group ID 55c545258c440a731a50810425bc gives FF 02 55 C5 45 25 8C 44 0A 73 1A 50 81 04 25 BC |
| Wire.IsHost | index.js:18-27 | the host schema: an object whose keys are exactly `url` and `id`, both strings (definition) |
| Wire.IsPacket | index.js:29-42 | the packet schema: an object whose keys are exactly `t`, an integer 0..255, and `h`, null or a host record (definition) |
| Wire.ParseHost | index.js:18-27 | a host record can be read off a value exactly when the host schema accepts it, and it writes back to that same value |
| Wire.ParsePacket | index.js:29-42 | a packet can be read off a value exactly when the packet schema accepts it, and it writes back to that same value |
| Wire.PacketRoundTrip | index.js:29-42 | every typed packet written out passes the packet schema and reads back unchanged |
| Wire.AcceptedExactly | index.js:29-46 | the packet schema accepts exactly the objects with keys `t` (integer 0..255) and `h` (null or a host record with string `url` and `id`) and nothing else |
| Wire.DiscoverPacket | index.js:110-115 | the broadcast DISCOVER is an accepted packet of type 1 with no host |
| Wire.HostPacket | index.js:103-108 | a packet built around a record passes the schema exactly when the record is null or a valid host, and then carries that host |
| Session.DestinationFor | index.js:88 | an explicit address is the destination; without one the group address is |
| Session.Send | index.js:86-101 | one send is the packet value, the fixed port 53566 and the destination `DestinationFor` chooses (definition) |
| Session.OnMessage | index.js:121-136 | the result is the decoded value unchanged when it decoded and passed the packet schema, and the failure result otherwise |
| Session.Received | index.js:121-136 | a typed packet is received exactly when the base handler accepts, and it is the decoded value |
| Session.UndecodableIsDropped | index.js:123-128 | a datagram that does not decode is rejected |
| Session.SentPacketIsReceived | index.js:98-100 | with a codec that returns what was encoded, a sent packet is received as itself |
| DiscovererRole.FirstMatch | index.js:178-196 | the clause a `switch` enters is the first whose label is strictly equal, or none |
| DiscovererRole.SwitchEntry | index.js:178-196 | ANNOUNCE enters the first clause, LOGOFF the second, any other type none; the repeated labels are never entered |
| DiscovererRole.AfterMessage | index.js:178-196 | the table after an accepted packet: a type 2 or 3 packet with a host maps the host's id to {url, id, now}; anything else leaves the table (definition; the handler is proved equal to it) |
| DiscovererRole.IsStale | index.js:161-165 | an entry is stale when its lastSeen is strictly before now minus 120000 ms (definition) |
| DiscovererRole.Cleaned | index.js:160-168 | the table after a sweep keeps the entries that are not stale (definition; the loop is proved equal to it) |
| DiscovererRole.Discoverer.constructor | index.js:147-153 | a new discoverer has the derived address, an empty table and one DISCOVER sent to the group |
| DiscovererRole.Discoverer.Create | index.js:60-67 | construction fails with the invalid-group-ID error exactly when the group ID is not a 14-byte Buffer |
| DiscovererRole.Discoverer.OnInterval | index.js:156-158 | appends one DISCOVER with a null host to the group |
| DiscovererRole.Discoverer.Cleanup | index.js:160-168 | the table afterwards holds exactly the entries that are not stale, unchanged |
| DiscovererRole.Discoverer.OnMessage | index.js:172-200 | the switch as written gives the table `AfterMessage` describes, and every entry stays under its own id |
| DiscovererRole.AnnounceRecordsHost | index.js:187-192 | an ANNOUNCE maps its host's id to {url, id, lastSeen = now} and leaves every other id as it was |
| DiscovererRole.ReceiveTwice | index.js:188-191 | the same packet received twice equals receiving it once at the later time |
| DiscovererRole.LogoffActsAsAnnounce | index.js:178-196 | a LOGOFF with a host has exactly the effect of an ANNOUNCE with that host and deletes nothing |
| DiscovererRole.MessagesNeverDelete | index.js:178-196 | no message removes a key from the table |
| DiscovererRole.UnchangedOtherwise | index.js:173-185 | a rejected datagram, a null host, or a type other than 2 and 3 leaves the table unchanged |
| DiscovererRole.MessageKeepsKeysMatched | index.js:188-191 | every entry stays stored under its own id |
| DiscovererRole.CleanupRemovesExactlyStale | index.js:160-168 | an id survives the sweep if and only if it was present with lastSeen at least now minus 120000 ms; survivors are unchanged |
| DiscovererRole.CleanupKeepsBoundary | index.js:165 | an entry exactly 120000 ms old survives |
| DiscovererRole.CleanupIdempotent | index.js:160-168 | a second sweep at the same time changes nothing |
| DiscovererRole.AnnouncedPeerSurvivesCleanup | index.js:160-191 | a peer announced within the last two minutes is not evicted |
| InstanceRole.ConstructionError | index.js:203-216 | the first failing check decides the error: group ID, then host schema, then URL, then id length 8; none fails exactly when all pass |
| InstanceRole.Instance.constructor | index.js:203-216 | a constructed instance keeps the given host record, which passed the host schema and has an id of length 8, and has sent nothing |
| InstanceRole.Instance.Create | index.js:203-216 | construction fails with exactly the error the checks decide; on success the host record is the one given |
| InstanceRole.Instance.SendOurInfo | index.js:103-108 | appends one ANNOUNCE of the host record to the given address, or to the group |
| InstanceRole.Instance.OnListening | index.js:229-232 | appends one ANNOUNCE of the host record to the group |
| InstanceRole.Instance.OnProcessExit | index.js:222-227 | appends one LOGOFF of the host record to the group |
| InstanceRole.Instance.OnMessage | index.js:234-244 | an accepted DISCOVER appends exactly one ANNOUNCE to the sender's address; anything else sends nothing |
| InstanceRole.SampleInstanceAccepted | index.js:207-215 | the sample program's host {url: "http://localhost:8080", id: "abcd1234"} (an 8-character hex id, as it draws) with the sample group ID passes every check when the URL check accepts the url |
| InstanceRole.ShortIdRejected | index.js:212-213 | a 7-character id fails with the id-length message |
| InstanceRole.HexDigit | tests/test2.js:4 | a hex digit is 0-9 or a-f |
| InstanceRole.Hex | tests/test2.js:4 | `toString('hex')`: two lower-case digits per byte, high nibble first (definition) |
| InstanceRole.HexLength | tests/test2.js:4 | the hex text of n bytes has 2n characters, all single UTF-16 code units |
| InstanceRole.RandomHexIdHasValidLength | tests/test2.js:4 | four random bytes in hex always make an id of length 8 |
| Exchange.AnnounceIsRecorded | index.js:103-108 | an instance's ANNOUNCE makes a discoverer record it as seen now and leaves other peers as they were |
| Exchange.LogoffKeepsPeer | index.js:222-227 | an instance's LOGOFF leaves it in the discoverer's table with a refreshed lastSeen |
| Exchange.DiscoverIsAccepted | index.js:110-115 | a discoverer's DISCOVER is received as an accepted DISCOVER |
| Exchange.DiscoverLeavesTable | index.js:178-197 | a DISCOVER leaves a discoverer's table unchanged |

## Left out

- InstanceRole.Instance.Create: when a host check fails, the model has no effects, but the source has already created the socket, wired its events and asked it to bind (index.js:78-83). The half-built object still starts listening and then sends `{t: 2, h: undefined}` to the group (index.js:229-232), and it answers every DISCOVER the same way (index.js:234-243). Every receiver rejects these packets at the schema check (index.js:129-133). The model does not capture this traffic.
- The UDP socket: creation, `unref`, event wiring, `bind`, broadcast, multicast TTL and group membership, and the promise around `send`. A send is an appended datagram; its success or failure is not modelled.
- The msgpack codec: decoding is a function parameter (`None` when it throws); no encode/decode round trip is proved, only consequences of assuming one.
- The schema engine itself: the two schemas are written out as predicates; the engine's error objects are one opaque `SchemaErrors` value.
- The `is-url` check: a function parameter `isUrl`.
- The textual canonical form of the address: destinations are the group's 16 bytes or the peer's address string.
- The clock and the timers: `now` is an argument; the one-minute and two-minute timers and the process-exit hook are calls of `OnInterval`, `Cleanup` and `OnProcessExit`.
- The `multicastInterface` option, which only selects the interface for group membership, and the `TypeError` a missing configuration object would raise.
- Logging.
- JavaScript `Map` insertion order, visible only in log output.
- The host record's object identity: the instance keeps the caller's object, so a later mutation by the caller would change what is sent; the model stores the value.
- Strings with lone surrogates: `Values.Utf16Length` counts Unicode scalar values, so a string holding an unpaired surrogate code unit cannot be represented.
- Numbers are modelled as exact reals; NaN, the infinities and BigInt are among `Other`, which no schema accepts.
