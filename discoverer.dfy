/**
 * The discoverer role: broadcasts DISCOVER, keeps a table of the peers it
 * has heard from, keyed by peer id, and evicts peers not seen for two
 * minutes. Clock readings are passed in as integer milliseconds.
 */
module DiscovererRole {
  import opened Wrappers
  import opened Values
  import opened Errors
  import opened Address
  import opened Wire
  import opened Session

  /** How long a peer stays in the table without being heard from. */
  const EXPIRY_MS: int := 1000 * 60 * 2

  /** A table entry: the host record's fields spread out, plus when it was last heard. */
  datatype Entry = Entry(url: string, id: string, lastSeen: int)

  type Table = map<string, Entry>

  /** Every entry is stored under its own id. */
  ghost predicate KeysMatch(table: Table) {
    forall id | id in table :: table[id].id == id
  }

  /** The case labels of the switch in the message handler, in source order. */
  const SWITCH_LABELS: seq<uint8> := [ANNOUNCE, LOGOFF, ANNOUNCE, LOGOFF]

  /**
   * The clause a JavaScript `switch` enters: the first one whose label is
   * strictly equal to the scrutinee, or `|labels|` when none is. Execution
   * then runs that clause and the following ones until a `break`.
   */
  function FirstMatch(labels: seq<uint8>, t: uint8): (k: nat)
    ensures k <= |labels|
    ensures k < |labels| ==> labels[k] == t
    ensures forall j :: 0 <= j < k ==> labels[j] != t
  {
    if labels == [] then 0
    else if labels[0] == t then 0
    else 1 + FirstMatch(labels[1..], t)
  }

  /**
   * ANNOUNCE enters the first clause and LOGOFF the second; every other type
   * enters none. The repeated labels (the third and fourth clauses) are never
   * entry points, so the delete in the fourth clause cannot run.
   */
  lemma SwitchEntry(t: uint8)
    ensures FirstMatch(SWITCH_LABELS, t) ==
      if t == ANNOUNCE then 0 else if t == LOGOFF then 1 else |SWITCH_LABELS|
  {
  }

  /**
   * The table after an accepted packet: an ANNOUNCE or a LOGOFF that carries
   * a host records that host as seen at `now`, replacing any earlier entry
   * for its id; nothing else changes the table.
   */
  function AfterMessage(table: Table, received: Option<Packet>, now: int): Table {
    match received
    case Some(Packet(t, Some(h))) =>
      if t == ANNOUNCE || t == LOGOFF then table[h.id := Entry(h.url, h.id, now)] else table
    case _ => table
  }

  /** An entry last seen more than two minutes before `now`. */
  predicate IsStale(e: Entry, now: int) {
    e.lastSeen < now - EXPIRY_MS
  }

  /** The table after a cleanup sweep at `now`: the entries that are not stale. */
  function Cleaned(table: Table, now: int): Table {
    map id | id in table && !IsStale(table[id], now) :: table[id]
  }

  class Discoverer {
    /** The group's multicast address. */
    const address: seq<uint8>
    /** The peer table, `this.instances`. */
    var instances: Table
    /** Every datagram handed to the socket so far, oldest first. */
    var sent: seq<Datagram>

    ghost predicate Valid()
      reads this
    {
      && |address| == ADDRESS_LENGTH && address[..2] == MULTICAST_PREFIX
      && KeysMatch(instances)
      && forall i :: 0 <= i < |sent| ==> IsPacket(sent[i].payload)
    }

    /** Construction with a checked group ID: an empty table and one DISCOVER already sent. */
    constructor (groupId: seq<uint8>)
      requires |groupId| == GROUP_ID_LENGTH
      ensures Valid()
      ensures address == MulticastAddress(groupId)
      ensures instances == map[]
      ensures sent == [Send(address, DiscoverPacket(), None)]
    {
      AddressLayout(groupId);
      address := MulticastAddress(groupId);
      instances := map[];
      sent := [];
      new;
      OnInterval();
    }

    /** `new MSDDiscoverer(config)`: throws unless the group ID is a 14-byte Buffer. */
    static method Create(groupId: Value) returns (r: Result<Discoverer, MsdError>)
      ensures r.Failure? <==> !IsGroupId(groupId)
      ensures r.Failure? ==> r.error == InvalidGroupId
      ensures r.Success? ==>
        && fresh(r.value) && r.value.Valid()
        && DeriveAddress(groupId) == Success(r.value.address)
        && r.value.instances == map[]
        && r.value.sent == [Send(r.value.address, DiscoverPacket(), None)]
    {
      match DeriveAddress(groupId)
      case Failure(e) =>
        r := Failure(e);
      case Success(_) =>
        var d := new Discoverer(groupId.bytes);
        r := Success(d);
    }

    /** The discover timer: one DISCOVER with a null host, to the group. */
    method OnInterval()
      requires Valid()
      modifies this`sent
      ensures Valid()
      ensures sent == old(sent) + [Send(address, DiscoverPacket(), None)]
    {
      sent := sent + [Send(address, DiscoverPacket(), None)];
    }

    /** The cleanup timer: deletes, during one pass over the table, every stale entry. */
    method Cleanup(now: int)
      requires Valid()
      modifies this`instances
      ensures Valid()
      ensures instances == Cleaned(old(instances), now)
    {
      var twoMinsAgo := now - EXPIRY_MS;
      var pending := instances.Keys;
      ghost var before := instances;
      while pending != {}
        invariant pending <= before.Keys
        invariant instances == map id | id in before && (id in pending || !IsStale(before[id], now)) :: before[id]
        decreases pending
      {
        var id :| id in pending;
        if instances[id].lastSeen < twoMinsAgo {
          instances := instances - {id};
        }
        pending := pending - {id};
      }
    }

    /**
     * The message handler, with the switch as written: enter at the first
     * matching label, then fall through until a `break`.
     */
    method OnMessage(decode: Decoder, msg: seq<uint8>, now: int)
      requires Valid()
      modifies this`instances
      ensures Valid()
      ensures instances == AfterMessage(old(instances), Received(decode, msg), now)
    {
      var decoded := Session.OnMessage(decode, msg);
      if decoded.None? {
        return;
      }
      var p := ParsePacket(decoded.value).value;
      var clause := FirstMatch(SWITCH_LABELS, p.t);
      SwitchEntry(p.t);
      var table := instances;
      label switch: {
        // Clause 0 (ANNOUNCE) has an empty body and falls through.
        // Clause 1 (LOGOFF): a null host ends the handler.
        if clause <= 1 {
          if p.h.None? {
            break switch;
          }
        }
        // Clause 2 (ANNOUNCE): records the host, then breaks.
        if clause <= 2 {
          var h := p.h.value;
          table := table[h.id := Entry(h.url, h.id, now)];
          break switch;
        }
        // Clause 3 (LOGOFF): removes the host, then breaks.
        if clause <= 3 {
          match p.h
          case Some(h) =>
            table := table - {h.id};
          case None =>
        }
      }
      instances := table;
    }
  }

  /**
   * An ANNOUNCE carrying a host maps the host's id to its url, id and `now`,
   * and leaves every other id as it was.
   */
  lemma AnnounceRecordsHost(table: Table, h: Host, now: int)
    ensures var r := AfterMessage(table, Some(Packet(ANNOUNCE, Some(h))), now);
      && r.Keys == table.Keys + {h.id}
      && r[h.id] == Entry(h.url, h.id, now)
      && forall id | id in table && id != h.id :: r[id] == table[id]
  {
  }

  /**
   * Receiving the same packet twice is receiving it once, at the later time:
   * one entry, carrying the later `lastSeen`.
   */
  lemma ReceiveTwice(table: Table, p: Packet, t1: int, t2: int)
    ensures AfterMessage(AfterMessage(table, Some(p), t1), Some(p), t2) == AfterMessage(table, Some(p), t2)
  {
  }

  /**
   * A LOGOFF carrying a host has exactly the effect of an ANNOUNCE of the
   * same host: it deletes nothing and refreshes the entry.
   */
  lemma LogoffActsAsAnnounce(table: Table, h: Host, now: int)
    ensures AfterMessage(table, Some(Packet(LOGOFF, Some(h))), now)
         == AfterMessage(table, Some(Packet(ANNOUNCE, Some(h))), now)
    ensures table.Keys <= AfterMessage(table, Some(Packet(LOGOFF, Some(h))), now).Keys
  {
  }

  /** No message ever removes a peer from the table. */
  lemma MessagesNeverDelete(table: Table, received: Option<Packet>, now: int)
    ensures table.Keys <= AfterMessage(table, received, now).Keys
  {
  }

  /**
   * The table is unchanged by a rejected datagram, by an ANNOUNCE or LOGOFF
   * without a host, and by any other message type.
   */
  lemma UnchangedOtherwise(table: Table, received: Option<Packet>, now: int)
    requires || received.None?
             || received.value.h.None?
             || (received.value.t != ANNOUNCE && received.value.t != LOGOFF)
    ensures AfterMessage(table, received, now) == table
  {
  }

  /** Receiving keeps every entry stored under its own id. */
  lemma MessageKeepsKeysMatched(table: Table, received: Option<Packet>, now: int)
    requires KeysMatch(table)
    ensures KeysMatch(AfterMessage(table, received, now))
  {
  }

  /**
   * The sweep removes exactly the entries last seen before `now` minus two
   * minutes, keeps the survivors unchanged and adds nothing.
   */
  lemma CleanupRemovesExactlyStale(table: Table, now: int)
    ensures forall id :: id in Cleaned(table, now) <==> id in table && table[id].lastSeen >= now - EXPIRY_MS
    ensures forall id | id in Cleaned(table, now) :: Cleaned(table, now)[id] == table[id]
  {
  }

  /** An entry last seen exactly two minutes before the sweep survives it. */
  lemma CleanupKeepsBoundary(table: Table, now: int, id: string)
    requires id in table && table[id].lastSeen == now - EXPIRY_MS
    ensures id in Cleaned(table, now) && Cleaned(table, now)[id] == table[id]
  {
  }

  /** A second sweep at the same time changes nothing. */
  lemma CleanupIdempotent(table: Table, now: int)
    ensures Cleaned(Cleaned(table, now), now) == Cleaned(table, now)
  {
  }

  /** A peer that re-announces at least every two minutes is never evicted. */
  lemma AnnouncedPeerSurvivesCleanup(table: Table, h: Host, seen: int, now: int)
    requires now - EXPIRY_MS <= seen
    ensures h.id in Cleaned(AfterMessage(table, Some(Packet(ANNOUNCE, Some(h))), seen), now)
  {
  }
}
