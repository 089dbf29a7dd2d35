/**
 * The instance role: holds this node's validated host record, announces it
 * when the socket starts listening, answers each DISCOVER with a unicast
 * ANNOUNCE, and sends LOGOFF when the process is about to exit.
 */
module InstanceRole {
  import opened Wrappers
  import opened Values
  import opened Errors
  import opened Address
  import opened Wire
  import opened Session

  const ID_LENGTH: nat := 8

  /**
   * The construction checks in source order, the first failing one deciding
   * the exception: the group ID, the host schema, the URL check (`isUrl`
   * stands for the URL library's predicate), the id's `length`.
   * `None` means construction succeeds.
   */
  function ConstructionError(groupId: Value, hostConfig: Value, isUrl: string -> bool): (r: Option<MsdError>)
    ensures r == Some(InvalidGroupId) <==> !IsGroupId(groupId)
    ensures r == Some(Validation(SchemaErrors)) <==> IsGroupId(groupId) && !IsHost(hostConfig)
    ensures r == Some(Validation(Messages([URL_INVALID]))) <==>
      IsGroupId(groupId) && IsHost(hostConfig) && !isUrl(hostConfig.fields["url"].s)
    ensures r == Some(Validation(Messages([ID_LENGTH_INVALID]))) <==>
      IsGroupId(groupId) && IsHost(hostConfig) && isUrl(hostConfig.fields["url"].s)
      && Utf16Length(hostConfig.fields["id"].s) != ID_LENGTH
    ensures r.None? <==>
      IsGroupId(groupId) && IsHost(hostConfig) && isUrl(hostConfig.fields["url"].s)
      && Utf16Length(hostConfig.fields["id"].s) == ID_LENGTH
  {
    if !IsGroupId(groupId) then Some(InvalidGroupId)
    else if !IsHost(hostConfig) then Some(Validation(SchemaErrors))
    else if !isUrl(hostConfig.fields["url"].s) then Some(Validation(Messages([URL_INVALID])))
    else if Utf16Length(hostConfig.fields["id"].s) != ID_LENGTH then Some(Validation(Messages([ID_LENGTH_INVALID])))
    else None
  }

  class Instance {
    /** The group's multicast address. */
    const address: seq<uint8>
    /** This node's host record, exactly as the caller supplied it. */
    const hostConfig: Value
    /** Every datagram handed to the socket so far, oldest first. */
    var sent: seq<Datagram>

    ghost predicate Valid()
      reads this
    {
      && |address| == ADDRESS_LENGTH && address[..2] == MULTICAST_PREFIX
      && IsHost(hostConfig)
      && Utf16Length(hostConfig.fields["id"].s) == ID_LENGTH
      && forall i :: 0 <= i < |sent| ==> IsPacket(sent[i].payload)
    }

    /** Construction once every check has passed. */
    constructor (groupId: seq<uint8>, hostConfig: Value)
      requires |groupId| == GROUP_ID_LENGTH && IsHost(hostConfig)
      requires Utf16Length(hostConfig.fields["id"].s) == ID_LENGTH
      ensures Valid()
      ensures address == MulticastAddress(groupId) && this.hostConfig == hostConfig
      ensures sent == []
    {
      AddressLayout(groupId);
      address := MulticastAddress(groupId);
      this.hostConfig := hostConfig;
      sent := [];
    }

    /** `new MSDInstance(hostConfig, config)`: throws what the first failing check decides. */
    static method Create(hostConfig: Value, groupId: Value, isUrl: string -> bool)
      returns (r: Result<Instance, MsdError>)
      ensures r.Failure? <==> ConstructionError(groupId, hostConfig, isUrl).Some?
      ensures r.Failure? ==> r.error == ConstructionError(groupId, hostConfig, isUrl).value
      ensures r.Success? ==>
        && fresh(r.value) && r.value.Valid()
        && r.value.hostConfig == hostConfig
        && DeriveAddress(groupId) == Success(r.value.address)
        && r.value.sent == []
    {
      var error := ConstructionError(groupId, hostConfig, isUrl);
      if error.Some? {
        r := Failure(error.value);
      } else {
        var inst := new Instance(groupId.bytes, hostConfig);
        r := Success(inst);
      }
    }

    /** `sendOurInfo`: an ANNOUNCE of our host record, to `addr` or else the group. */
    method SendOurInfo(addr: Option<string>)
      requires Valid()
      modifies this`sent
      ensures Valid()
      ensures sent == old(sent) + [Send(address, HostPacket(ANNOUNCE, hostConfig), addr)]
    {
      sent := sent + [Send(address, HostPacket(ANNOUNCE, hostConfig), addr)];
    }

    /** Once listening: announce ourselves to the whole group. */
    method OnListening()
      requires Valid()
      modifies this`sent
      ensures Valid()
      ensures sent == old(sent) + [Datagram(HostPacket(ANNOUNCE, hostConfig), MSD_PORT_NUMBER, Group(address))]
    {
      SendOurInfo(None);
    }

    /** Before the process exits: a LOGOFF of our host record, to the group. */
    method OnProcessExit()
      requires Valid()
      modifies this`sent
      ensures Valid()
      ensures sent == old(sent) + [Datagram(HostPacket(LOGOFF, hostConfig), MSD_PORT_NUMBER, Group(address))]
    {
      sent := sent + [Send(address, HostPacket(LOGOFF, hostConfig), None)];
    }

    /**
     * The message handler: an accepted DISCOVER is answered with exactly one
     * ANNOUNCE of our host record, sent to the sender's address; anything
     * else sends nothing.
     */
    method OnMessage(decode: Decoder, msg: seq<uint8>, info: RemoteInfo)
      requires Valid()
      modifies this`sent
      ensures Valid()
      ensures Received(decode, msg).Some? && Received(decode, msg).value.t == DISCOVER ==>
        sent == old(sent) + [Datagram(HostPacket(ANNOUNCE, hostConfig), MSD_PORT_NUMBER, Unicast(info.address))]
      ensures !(Received(decode, msg).Some? && Received(decode, msg).value.t == DISCOVER) ==>
        sent == old(sent)
    {
      var decoded := Session.OnMessage(decode, msg);
      if decoded.None? {
        return;
      }
      var p := ParsePacket(decoded.value).value;
      if p.t == DISCOVER {
        SendOurInfo(Some(info.address));
      }
    }
  }

  /** The host record of the sample instance program, with the given id. */
  function SampleHost(id: string): Value {
    Obj(map["url" := Str("http://localhost:8080"), "id" := Str(id)])
  }

  /** The sample instance program, with one of its hex ids, joins the sample group: every check passes. */
  lemma SampleInstanceAccepted(isUrl: string -> bool)
    requires isUrl("http://localhost:8080")
    ensures ConstructionError(Bin(SAMPLE_GROUP_ID), SampleHost("abcd1234"), isUrl) == None
  {
  }

  /** A 7-character id fails on the id-length check alone. */
  lemma ShortIdRejected(isUrl: string -> bool)
    requires isUrl("http://localhost:8080")
    ensures ConstructionError(Bin(SAMPLE_GROUP_ID), SampleHost("abcd123"), isUrl)
         == Some(Validation(Messages([ID_LENGTH_INVALID])))
  {
  }

  /** A lower-case hexadecimal digit. */
  function HexDigit(n: uint8): (c: char)
    requires n < 16
    ensures '0' <= c <= '9' || 'a' <= c <= 'f'
  {
    if n < 10 then ('0' as int + n as int) as char else ('a' as int + n as int - 10) as char
  }

  /** `buffer.toString('hex')`: two lower-case digits per byte, high nibble first. */
  function Hex(bytes: seq<uint8>): (s: string)
  {
    if bytes == [] then []
    else [HexDigit(bytes[0] / 16), HexDigit(bytes[0] % 16)] + Hex(bytes[1..])
  }

  /** The hex text of n bytes is 2n characters, each one UTF-16 code unit. */
  lemma {:induction false} HexLength(bytes: seq<uint8>)
    ensures |Hex(bytes)| == 2 * |bytes| && InBmp(Hex(bytes))
  {
    if bytes != [] {
      HexLength(bytes[1..]);
      var head := [HexDigit(bytes[0] / 16), HexDigit(bytes[0] % 16)];
      assert Hex(bytes) == head + Hex(bytes[1..]);
      forall i | 0 <= i < |Hex(bytes)| ensures Hex(bytes)[i] as int < 0x1_0000 {
        if i >= 2 {
          assert Hex(bytes)[i] == Hex(bytes[1..])[i - 2];
        }
      }
    }
  }

  /** The id the sample programs draw, four random bytes in hex, always passes the id-length check. */
  lemma RandomHexIdHasValidLength(bytes: seq<uint8>)
    requires |bytes| == 4
    ensures Utf16Length(Hex(bytes)) == ID_LENGTH
  {
    HexLength(bytes);
    Utf16LengthOfBmp(Hex(bytes));
  }
}
