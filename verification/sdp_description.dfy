/**
 A parsed SDP description as the semantic checks of cfg/cfg_channel.c see it: the session level and a
 list of media sections with bandwidth lines and attributes.
 */
module SdpDescription {
  import opened Options
  import opened ChannelMap

  // ----- addresses and ports -----

  /** The first octet of a dotted address, which lies lowest in memory. */
  function FirstOctet(a: Addr): nat { a % 256 }

  /** Text where an address is expected; None if it is not four octets. */
  type AddrText = Option<Addr>

  /** is_valid_ip_address. */
  predicate IsAddress(t: AddrText) { t.Some? && FirstOctet(t.value) != 0 }

  /** is_valid_ip_host_addr. */
  predicate IsHost(t: AddrText) { t.Some? && 1 <= FirstOctet(t.value) <= 223 }

  predicate InMulticastRange(a: Addr) { 224 <= FirstOctet(a) <= 239 }

  /** The bytes of a 16-bit number in the other order: htons and ntohs on a little-endian machine. */
  function ByteSwap(p: Port): Port { (p % 256) * 256 + p / 256 }

  // ----- descriptions -----

  datatype Transport = Udp | RtpAvp | RtpAvpf | OtherTransport
  datatype Encoding = EncRtx | EncMp2t | EncParity | Enc2dParity | EncOther
  datatype BwModifier = AS | RS | RR | OtherBw
  datatype Bandwidth = Bandwidth(modifier: BwModifier, value: nat)

  /** A c= line; text that is not an address may still begin like a multicast one. */
  datatype Connection = Connection(addr: AddrText, beginsMulticast: bool)

  /** sdp_is_mcast_addr. */
  predicate IsMulticast(c: Connection) { if c.addr.Some? then InMulticastRange(c.addr.value) else c.beginsMulticast }

  /** The optional address of an a=rtcp line. */
  datatype Target = NoTarget | Target(addr: AddrText)

  datatype Attr =
    | SendOnlyAttr
    | RecvOnlyAttr
    | InactiveAttr
    | SourceFilter(incl: bool, dest: AddrText, sources: seq<AddrText>)
    | RtpMap(pt: nat, encoding: Encoding, clockRate: nat)
    | Rtcp(port: nat, target: Target)
    | RtcpFb(pt: nat, nack: Option<string>)
    | Mid(id: string)
    | Fmtp(pt: nat, retransmission: bool, apt: nat, rtxTime: nat, perRcvrBw: nat)
    | OtherAttr

  datatype Media = Media(
    video: bool, transport: Transport, port: nat, payloadTypes: seq<nat>, conn: Connection,
    bandwidths: seq<Bandwidth>, attrs: seq<Attr>)

  datatype GroupKind = Fid | Fec | OtherGroup
  datatype Group = Group(kind: GroupKind, ids: seq<string>)

  datatype UnicastMode = Reflection | Rsi | NotPresent | OtherMode

  datatype Description = Description(
    username: string, sessionId: string, version: string, creator: string, internet: bool,
    name: string, startTime: string, stopTime: string,
    groups: seq<Group>, rtcpUnicast: UnicastMode, media: seq<Media>)

  // ----- what is looked up in a section -----

  /** The section is marked sendonly or recvonly somewhere. */
  predicate Active(m: Media) {
    exists i :: 0 <= i < |m.attrs| && (m.attrs[i].SendOnlyAttr? || m.attrs[i].RecvOnlyAttr?)
  }

  /** get_bit_rate: the first AS bandwidth. */
  function BitRate(bws: seq<Bandwidth>): (r: Option<nat>)
    ensures r.Some? ==> exists i :: 0 <= i < |bws| && bws[i] == Bandwidth(AS, r.value)
  {
    if bws == [] then None
    else if bws[0].modifier == AS then Some(bws[0].value)
    else
      var r := BitRate(bws[1..]);
      assert r.Some? ==> exists i :: 0 <= i < |bws[1..]| && bws[1..][i] == bws[i + 1] == Bandwidth(AS, r.value);
      r
  }

  function FirstRtpMap(attrs: seq<Attr>): (r: Option<Attr>)
    ensures r.Some? ==> r.value.RtpMap?
  {
    if attrs == [] then None else if attrs[0].RtpMap? then Some(attrs[0]) else FirstRtpMap(attrs[1..])
  }

  function FirstFmtp(attrs: seq<Attr>): (r: Option<Attr>)
    ensures r.Some? ==> r.value.Fmtp?
  {
    if attrs == [] then None else if attrs[0].Fmtp? then Some(attrs[0]) else FirstFmtp(attrs[1..])
  }
}
