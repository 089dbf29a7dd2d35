/**
 * The protocol end to end: what a discoverer's table does with the packets
 * an instance sends, and what an instance makes of a discoverer's DISCOVER,
 * for a codec that gives back what was encoded.
 */
module Exchange {
  import opened Wrappers
  import opened Values
  import opened Wire
  import opened Session
  import opened DiscovererRole

  /** An instance's ANNOUNCE makes the discoverer record that instance as seen now. */
  lemma AnnounceIsRecorded(decode: Decoder, msg: seq<uint8>, hostConfig: Value, table: Table, now: int)
    requires IsHost(hostConfig) && decode(msg) == Some(HostPacket(ANNOUNCE, hostConfig))
    ensures var id := hostConfig.fields["id"].s;
      var r := AfterMessage(table, Received(decode, msg), now);
      && id in r
      && r[id] == Entry(hostConfig.fields["url"].s, id, now)
      && forall other | other in table && other != id :: other in r && r[other] == table[other]
  {
  }

  /**
   * An instance's LOGOFF on exit does not take it out of the discoverer's
   * table: the entry is refreshed instead, and leaves only by eviction.
   */
  lemma LogoffKeepsPeer(decode: Decoder, msg: seq<uint8>, hostConfig: Value, table: Table, now: int)
    requires IsHost(hostConfig) && decode(msg) == Some(HostPacket(LOGOFF, hostConfig))
    ensures var id := hostConfig.fields["id"].s;
      var r := AfterMessage(table, Received(decode, msg), now);
      && id in r
      && r[id].lastSeen == now
      && table.Keys <= r.Keys
  {
  }

  /** A discoverer's DISCOVER reaches an instance as an accepted DISCOVER, so it is answered. */
  lemma DiscoverIsAccepted(decode: Decoder, msg: seq<uint8>)
    requires decode(msg) == Some(DiscoverPacket())
    ensures Received(decode, msg) == Some(Packet(DISCOVER, None))
  {
  }

  /** A DISCOVER that reaches a discoverer leaves its table as it was. */
  lemma DiscoverLeavesTable(decode: Decoder, msg: seq<uint8>, table: Table, now: int)
    requires decode(msg) == Some(DiscoverPacket())
    ensures AfterMessage(table, Received(decode, msg), now) == table
  {
  }
}
