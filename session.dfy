/**
 * What the two roles share (the base session): the receive pipeline that
 * decodes a datagram and checks it against the packet schema, and the
 * choice of destination for a send.
 */
module Session {
  import opened Wrappers
  import opened Values
  import opened Wire

  const MSD_PORT_NUMBER: nat := 53566

  /**
   * The msgpack decoder, as a black box: the decoded value, or `None` when
   * decoding throws.
   */
  type Decoder = seq<uint8> -> Option<Value>

  /** Where a datagram goes: the session's group address, or a peer's address as the socket reported it. */
  datatype Destination = Group(groupAddress: seq<uint8>) | Unicast(peer: string)

  /** One call of the socket's send: the value handed to the encoder, the port and the destination. */
  datatype Datagram = Datagram(payload: Value, port: nat, to: Destination)

  /** The sender of a received datagram, as far as the roles use it. */
  datatype RemoteInfo = RemoteInfo(address: string)

  /** `addr ?? addressCanonical`: an explicit address wins, otherwise the group. */
  function DestinationFor(group: seq<uint8>, addr: Option<string>): (d: Destination)
    ensures addr.Some? ==> d == Unicast(addr.value)
    ensures addr.None? ==> d == Group(group)
  {
    match addr
    case Some(a) => Unicast(a)
    case None => Group(group)
  }

  /** The datagram a send of `payload` produces: always to the fixed port. */
  function Send(group: seq<uint8>, payload: Value, addr: Option<string>): Datagram
  {
    Datagram(payload, MSD_PORT_NUMBER, DestinationFor(group, addr))
  }

  /**
   * The base `onMessage`: the decoded value itself when it decoded and passed
   * the packet schema; `None` (the source's `false`) otherwise.
   */
  function OnMessage(decode: Decoder, msg: seq<uint8>): (r: Option<Value>)
    ensures r.Some? <==> decode(msg).Some? && IsPacket(decode(msg).value)
    ensures r.Some? ==> r == decode(msg)
  {
    match decode(msg)
    case None => None
    case Some(v) => if IsPacket(v) then Some(v) else None
  }

  /** The accepted packet, read as a typed `Packet`; what the role handlers switch on. */
  function Received(decode: Decoder, msg: seq<uint8>): (r: Option<Packet>)
    ensures r.Some? <==> OnMessage(decode, msg).Some?
    ensures r.Some? ==> PacketValue(r.value) == decode(msg).value
  {
    match OnMessage(decode, msg)
    case None => None
    case Some(v) => ParsePacket(v)
  }

  /** A datagram that does not decode is dropped before any role sees it. */
  lemma UndecodableIsDropped(decode: Decoder, msg: seq<uint8>)
    requires decode(msg).None?
    ensures OnMessage(decode, msg).None? && Received(decode, msg).None?
  {
  }

  /**
   * If the codec gives back what was encoded, then whatever a role sends is
   * received as the typed packet it was built from.
   */
  lemma SentPacketIsReceived(decode: Decoder, msg: seq<uint8>, p: Packet)
    requires decode(msg) == Some(PacketValue(p))
    ensures Received(decode, msg) == Some(p)
  {
  }
}
