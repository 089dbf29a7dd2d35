/**
 * The wire protocol: the two JSON Type Definition schemas (RFC 8927) as
 * predicates over decoded values, the typed packet they describe, and the
 * packet shapes the roles build.
 */
module Wire {
  import opened Wrappers
  import opened Values

  const DISCOVER: uint8 := 0x01
  const ANNOUNCE: uint8 := 0x02
  const LOGOFF: uint8 := 0x03

  /** A host record: the payload of ANNOUNCE and LOGOFF. */
  datatype Host = Host(url: string, id: string)

  /** A packet that passed the packet schema: a type code and an optional host. */
  datatype Packet = Packet(t: uint8, h: Option<Host>)

  /** `type: 'uint8'` (section 3.3.3 of RFC 8927): a number that is an integer in 0..255. */
  predicate IsUint8(v: Value) {
    v.Num? && v.n.Floor as real == v.n && 0.0 <= v.n <= 255.0
  }

  /** The `properties` form (section 3.3.6 of RFC 8927): an object with exactly these keys. */
  predicate HasExactly(v: Value, keys: set<string>) {
    v.Obj? && v.fields.Keys == keys
  }

  /** `HOST_SCHEMA`: exactly the keys `url` and `id`, both strings. */
  predicate IsHost(v: Value) {
    HasExactly(v, {"url", "id"}) && v.fields["url"].Str? && v.fields["id"].Str?
  }

  /** `PACKET_SCHEMA`: exactly `t`, a uint8, and `h`, null or a host. */
  predicate IsPacket(v: Value) {
    && HasExactly(v, {"t", "h"})
    && IsUint8(v.fields["t"])
    && (v.fields["h"].Null? || IsHost(v.fields["h"]))
  }

  /** The object literal `{ t, h }` that the roles hand to the encoder. */
  function PacketOf(t: uint8, h: Value): Value {
    Obj(map["t" := Num(t as int as real), "h" := h])
  }

  function HostValue(host: Host): Value {
    Obj(map["url" := Str(host.url), "id" := Str(host.id)])
  }

  function PacketValue(p: Packet): Value {
    PacketOf(p.t, if p.h.Some? then HostValue(p.h.value) else Null)
  }

  /** Reads a host record off a value; defined exactly where the host schema accepts. */
  function ParseHost(v: Value): (r: Option<Host>)
    ensures r.Some? <==> IsHost(v)
    ensures r.Some? ==> HostValue(r.value) == v
  {
    if IsHost(v) then
      var r := Host(v.fields["url"].s, v.fields["id"].s);
      assert HostValue(r).fields == v.fields;
      Some(r)
    else None
  }

  /** Reads a packet off a value; defined exactly where the packet schema accepts. */
  function ParsePacket(v: Value): (r: Option<Packet>)
    ensures r.Some? <==> IsPacket(v)
    ensures r.Some? ==> PacketValue(r.value) == v
  {
    if IsPacket(v) then
      var n := v.fields["t"].n.Floor;
      var h := if v.fields["h"].Null? then None else ParseHost(v.fields["h"]);
      var r := Packet(n as uint8, h);
      assert PacketValue(r).fields == v.fields;
      Some(r)
    else None
  }

  /** Every typed packet, written out as the roles write it, passes the schema and reads back unchanged. */
  lemma PacketRoundTrip(p: Packet)
    ensures IsPacket(PacketValue(p))
    ensures ParsePacket(PacketValue(p)) == Some(p)
  {
  }

  /** The packet schema accepts exactly the values that are some typed packet written out. */
  lemma AcceptedExactly(v: Value)
    ensures IsPacket(v) <==> exists p :: PacketValue(p) == v
  {
    if IsPacket(v) {
      assert PacketValue(ParsePacket(v).value) == v;
    }
    forall p | PacketValue(p) == v ensures IsPacket(v) {
      PacketRoundTrip(p);
    }
  }

  /** The DISCOVER that `broadcastDiscover` sends: type 1 and a null host. */
  function DiscoverPacket(): (v: Value)
    ensures ParsePacket(v) == Some(Packet(DISCOVER, None))
  {
    PacketRoundTrip(Packet(DISCOVER, None));
    PacketOf(DISCOVER, Null)
  }

  /**
   * A packet built around a host record, as `sendOurInfo` and the logoff
   * handler build it: it passes the packet schema exactly when the record
   * is null or passes the host schema, and then carries that record.
   */
  function HostPacket(t: uint8, host: Value): (v: Value)
    ensures IsPacket(v) <==> host.Null? || IsHost(host)
    ensures IsHost(host) ==> ParsePacket(v) == Some(Packet(t, ParseHost(host)))
  {
    var v := PacketOf(t, host);
    assert IsHost(host) ==> ParsePacket(v) == Some(Packet(t, ParseHost(host))) by {
      if IsHost(host) {
        PacketRoundTrip(Packet(t, ParseHost(host)));
        assert PacketValue(Packet(t, ParseHost(host))) == v;
      }
    }
    v
  }
}
