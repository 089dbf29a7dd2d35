/**
 * Multicast address derivation: a 14-byte group ID becomes the IPv6
 * link-local multicast address FF02::<group ID>, laid out as in
 * section 2.7 of RFC 4291 (8-bit prefix FF, 4-bit flags, 4-bit scope,
 * 112-bit group ID).
 */
module Address {
  import opened Wrappers
  import opened Values
  import opened Errors

  const GROUP_ID_LENGTH: nat := 112 / 8
  const ADDRESS_LENGTH: nat := 128 / 8
  const MULTICAST_PREFIX: seq<uint8> := [0xFF, 0x02]

  /** `Buffer.isBuffer(v) && v.length === 14`. */
  predicate IsGroupId(v: Value) {
    v.Bin? && |v.bytes| == GROUP_ID_LENGTH
  }

  function Flatten(list: seq<seq<uint8>>): (r: seq<uint8>)
  {
    if list == [] then [] else list[0] + Flatten(list[1..])
  }

  /**
   * `Buffer.concat(list, totalLength)`: the bytes of the list in order, cut
   * to `totalLength`, or zero-filled up to it when the list is shorter.
   */
  function Concat(list: seq<seq<uint8>>, totalLength: nat): (r: seq<uint8>)
    ensures |r| == totalLength
    ensures forall i :: 0 <= i < totalLength ==>
      r[i] == if i < |Flatten(list)| then Flatten(list)[i] else 0
  {
    var all := Flatten(list);
    if |all| >= totalLength then all[..totalLength]
    else all + seq(totalLength - |all|, _ => 0)
  }

  /** The 16 bytes built from a group ID (the text rendering is not modelled). */
  function MulticastAddress(groupId: seq<uint8>): seq<uint8>
    requires |groupId| == GROUP_ID_LENGTH
  {
    Concat([MULTICAST_PREFIX, groupId], ADDRESS_LENGTH)
  }

  /** The address is the prefix FF 02 followed by exactly the group ID's bytes. */
  lemma AddressLayout(groupId: seq<uint8>)
    requires |groupId| == GROUP_ID_LENGTH
    ensures var a := MulticastAddress(groupId);
      |a| == 16 && a[..2] == MULTICAST_PREFIX && a[2..] == groupId
  {
    assert Flatten([groupId]) == groupId + Flatten([]);
    assert Flatten([MULTICAST_PREFIX, groupId]) == MULTICAST_PREFIX + Flatten([groupId]);
    assert Flatten([MULTICAST_PREFIX, groupId]) == MULTICAST_PREFIX + groupId;
  }

  /** Distinct group IDs never share an address: the rendezvous is unambiguous. */
  lemma AddressInjective(g1: seq<uint8>, g2: seq<uint8>)
    requires |g1| == GROUP_ID_LENGTH && |g2| == GROUP_ID_LENGTH
    ensures MulticastAddress(g1) == MulticastAddress(g2) <==> g1 == g2
  {
    AddressLayout(g1);
    AddressLayout(g2);
  }

  /** Prefix FF, flags 0 (a well-known address), scope 2 (link-local). */
  lemma AddressFields(groupId: seq<uint8>)
    requires |groupId| == GROUP_ID_LENGTH
    ensures var a := MulticastAddress(groupId);
      a[0] == 0xFF && a[1] / 16 == 0 && a[1] % 16 == 2
  {
  }

  /**
   * The group-ID check of the session constructor followed by the address
   * build: anything but a 14-byte Buffer throws `MSDInvalidGroupIDError`.
   */
  function DeriveAddress(groupId: Value): (r: Result<seq<uint8>, MsdError>)
    ensures r.Failure? <==> !IsGroupId(groupId)
    ensures r.Failure? ==> r.error == InvalidGroupId
    ensures r.Success? ==>
      |r.value| == ADDRESS_LENGTH && r.value[..2] == MULTICAST_PREFIX && r.value[2..] == groupId.bytes
  {
    if !IsGroupId(groupId) then Failure(InvalidGroupId)
    else
      AddressLayout(groupId.bytes);
      Success(MulticastAddress(groupId.bytes))
  }

  /** The group ID the sample programs use, 55c545258c440a731a50810425bc. */
  const SAMPLE_GROUP_ID: seq<uint8> :=
    [0x55, 0xC5, 0x45, 0x25, 0x8C, 0x44, 0x0A, 0x73, 0x1A, 0x50, 0x81, 0x04, 0x25, 0xBC]

  lemma SampleAddress()
    ensures DeriveAddress(Bin(SAMPLE_GROUP_ID)) == Success(
      [0xFF, 0x02, 0x55, 0xC5, 0x45, 0x25, 0x8C, 0x44, 0x0A, 0x73, 0x1A, 0x50, 0x81, 0x04, 0x25, 0xBC])
  {
    var a := DeriveAddress(Bin(SAMPLE_GROUP_ID)).value;
    assert a == a[..2] + a[2..];
    var expected: seq<uint8> :=
      [0xFF, 0x02, 0x55, 0xC5, 0x45, 0x25, 0x8C, 0x44, 0x0A, 0x73, 0x1A, 0x50, 0x81, 0x04, 0x25, 0xBC];
    assert expected[..2] == MULTICAST_PREFIX;
    assert expected[2..] == SAMPLE_GROUP_ID;
    assert expected == expected[..2] + expected[2..];
  }
}
