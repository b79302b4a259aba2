/**
 * The lab's synthetic probes: frames built with valid checksums, and the
 * parser that must find in them exactly what was put in.
 */
module EcnProbe {
  import EcnCapture
  import opened Common
  import opened InternetChecksum

  const MAGIC: seq<Byte> := [0x46, 0x4d, 0x45, 0x43, 0x4e, 0x30, 0x30, 0x31]
  const MARKER := 30
  const MACS: seq<Byte> := [0x02, 0xec, 0, 0, 0, 0x02, 0x02, 0xec, 0, 0, 0, 0x01]
  const IPV4: seq<Byte> := [198, 18, 0, 1, 198, 18, 0, 2]
  const IPV6: seq<Byte> := [
    0x20, 0x01, 0x0d, 0xb8, 0, 0xec, 0, 0, 0, 0, 0, 0, 0, 0, 0, 1,
    0x20, 0x01, 0x0d, 0xb8, 0, 0xec, 0, 0, 0, 0, 0, 0, 0, 0, 0, 2]

  datatype Case = Case(v4: bool, vlan: Option<int>, dscp: int, ecn: int, port: Half) {
    predicate Valid() {
      0 <= dscp < 64 && 0 <= ecn < 4 && (vlan.Some? ==> 0 <= vlan.value < 0x1000)
    }

    function Tos(): Byte
      requires Valid()
    {
      dscp * 4 + ecn
    }
  }

  /** Who sent it: the key of a probe. */
  datatype Key = Key(run: seq<Byte>, stage: Byte, caseId: Byte, sequence: Word)

  function Put32(w: Word): seq<Byte> {
    [w / 0x100_0000, w / 0x1_0000 % 0x100, w / 0x100 % 0x100, w % 0x100]
  }

  function Be32(s: seq<Byte>, i: nat): Word
    requires i + 3 < |s|
  {
    (s[i] as int) * 0x100_0000 + (s[i + 1] as int) * 0x1_0000 + (s[i + 2] as int) * 0x100 + (s[i + 3] as int)
  }

  lemma WordReadsBack(w: Word)
    ensures Be32(Put32(w), 0) == w
  {
    var a, b, c := w / 0x100_0000, w / 0x1_0000, w / 0x100;
    assert b == a * 0x100 + b % 0x100 && c == b * 0x100 + c % 0x100 && w == c * 0x100 + w % 0x100;
  }

  // ----- making ----------------------------------------------------------

  function Marker(k: Key): seq<Byte>
    requires |k.run| == 16
  {
    MAGIC + k.run + [k.stage, k.caseId] + Put32(k.sequence)
  }

  /** The datagram before its checksum; `filler` is any padding of the payload. */
  function BareUdp(c: Case, k: Key, filler: seq<Byte>): seq<Byte>
    requires |k.run| == 16 && |filler| < 65000
  {
    Put16(49152 + k.caseId) + Put16(c.port) + Put16(8 + MARKER + |filler|) + [0, 0] + Marker(k) + filler
  }

  function PseudoHeader(v4: bool, addresses: seq<Byte>, length: Half): seq<Byte> {
    addresses + if v4 then [0, 17] + Put16(length) else [0, 0] + Put16(length) + [0, 0, 0, 17]
  }

  /** The pseudo-headers of RFC 768 and of section 8.1 of RFC 2460: the addresses,
      protocol and length, in 16 bits each over IPv4 and in 32 over IPv6. */
  lemma PseudoHeadersAre(addresses: seq<Byte>, length: Half)
    ensures PseudoHeader(true, addresses, length) == addresses + (Put16(17) + Put16(length))
    ensures PseudoHeader(false, addresses, length) == addresses + (Put32(length) + Put32(17))
  {
  }

  /** The probe and the capture verifier leave the same bytes of an IPv4 frame to be compared. */
  lemma KeptAgrees(frame: seq<Byte>, ip: nat)
    requires ip + 20 <= |frame|
    ensures Kept4(frame, ip) == EcnCapture.Blanked(frame, ip)
    ensures Kept4(frame, ip)[ip + 1] / 4 == frame[ip + 1] / 4 && Kept4(frame, ip)[ip + 1] % 4 == 0
    ensures Be16(Kept4(frame, ip), ip + 10) == 0
  {
  }

  /** Every code point, ECN field and VLAN, and no other. */
  lemma CasesAre(v4: bool, port: Half)
    ensures Case(v4, None, 0, 0, port).Valid() && Case(v4, None, 63, 3, port).Valid()
    ensures Case(v4, Some(0), 1, 1, port).Valid() && Case(v4, Some(4095), 1, 2, port).Valid()
    ensures !Case(v4, Some(4096), 0, 0, port).Valid() && !Case(v4, None, 64, 0, port).Valid()
    ensures !Case(v4, None, 0, 4, port).Valid()
  {
  }

  /** Zero is sent as 0xFFFF: zero would mean that there is no checksum. */
  function UdpChecksum(s: seq<Byte>): Half {
    if Checksum(s) == 0 then 65535 else Checksum(s)
  }

  function Addresses(v4: bool): seq<Byte> { if v4 then IPV4 else IPV6 }

  function Udp(c: Case, k: Key, filler: seq<Byte>): seq<Byte>
    requires |k.run| == 16 && |filler| < 65000
  {
    var bare := BareUdp(c, k, filler);
    With16(bare, 6, UdpChecksum(PseudoHeader(c.v4, Addresses(c.v4), |bare|) + bare))
  }

  function BareHeader4(tos: Byte, total: Half, id: Half): seq<Byte> {
    [0x45, tos] + Put16(total) + Put16(id) + [0x40, 0, 64, 17, 0, 0] + IPV4
  }

  function Header4(tos: Byte, total: Half, id: Half): seq<Byte> {
    var bare := BareHeader4(tos, total, id);
    With16(bare, 10, Checksum(bare))
  }

  function Header6(tos: Byte, length: Half): seq<Byte> {
    [0x60 + tos / 16, tos % 16 * 16 + 1, 0x23, 0x45] + Put16(length) + [17, 64] + IPV6
  }

  function Header(c: Case, k: Key, length: nat): seq<Byte>
    requires c.Valid() && length < 65400
  {
    if c.v4 then Header4(c.Tos(), 20 + length, k.sequence % 0x1_0000) else Header6(c.Tos(), length)
  }

  function LinkHeader(c: Case): seq<Byte>
    requires c.Valid()
  {
    MACS + (if c.vlan.Some? then Put16(0x8100) + Put16(0x6000 + c.vlan.value) else [])
    + Put16(if c.v4 then 0x0800 else 0x86dd)
  }

  /** make_frame. */
  function MakeFrame(c: Case, k: Key, filler: seq<Byte>): seq<Byte>
    requires c.Valid() && |k.run| == 16 && |filler| < 65000
  {
    LinkHeader(c) + (Header(c, k, 8 + MARKER + |filler|) + Udp(c, k, filler))
  }

  /** The frame of a probe; a run id that is not 16 bytes is refused. */
  function MakeProbe(c: Case, k: Key, filler: seq<Byte>): Option<seq<Byte>>
    requires c.Valid() && |filler| < 65000
  {
    if |k.run| != 16 then None else Some(MakeFrame(c, k, filler))
  }

  // ----- parsing ---------------------------------------------------------

  datatype Record = Record(
    key: Key, v4: bool, dscp: int, ecn: int, tags: seq<(Half, Half)>, sourcePort: Half, destinationPort: Half,
    ipValid: bool, udpValid: bool, kept: seq<Byte>, ipOffset: nat)

  datatype Parsed = NotAProbe | Refused | Probe(record: Record)

  predicate PartAt(s: seq<Byte>, part: seq<Byte>, i: nat) {
    i + |part| <= |s| && s[i..i + |part|] == part
  }

  predicate Contains(s: seq<Byte>, part: seq<Byte>) {
    exists i: nat | i <= |s| :: PartAt(s, part, i)
  }

  /** Tags off the front: at most two of them, each complete. */
  datatype Untagged = BadTags | Untagged(offset: nat, ether: Half, tags: seq<(Half, Half)>)

  function Untag(frame: seq<Byte>, offset: nat, ether: Half, tags: seq<(Half, Half)>): (r: Untagged)
    requires offset <= |frame|
    ensures r.Untagged? ==> offset <= r.offset <= |frame|
    decreases |frame| - offset
  {
    if !EcnCapture.IsTag(ether) then Untagged(offset, ether, tags)
    else if |tags| >= 2 || |frame| < offset + 4 then BadTags
    else Untag(frame, offset + 4, Be16(frame, offset + 2), tags + [(ether, Be16(frame, offset))])
  }

  /** The datagram of a probe. */
  function ParseUdp(v4: bool, addresses: seq<Byte>, u: seq<Byte>, tos: Byte, ipValid: bool,
                    tags: seq<(Half, Half)>, kept: seq<Byte>, offset: nat): Parsed
    requires |u| >= 8 + MARKER
  {
    if Be16(u, 4) != |u| || Be16(u, 6) == 0 || u[8..16] != MAGIC then Refused
    else Probe(Record(Key(u[16..32], u[32], u[33], Be32(u, 34)), v4, tos / 4, tos % 4, tags,
                      Be16(u, 0), Be16(u, 2), ipValid,
                      Verifies(PseudoHeader(v4, addresses, |u|) + u), kept, offset))
  }

  /** From the network header on. */
  function ParseIp(frame: seq<Byte>, at: Untagged): Parsed
    requires at.Untagged? && at.offset <= |frame|
  {
    var ip := at.offset;
    var net := frame[ip..];
    if at.ether == 0x0800 then
      if |net| < 20 || net[0] != 0x45 || net[9] != 17 || Be16(net, 6) % 0x4000 != 0
         || Be16(net, 2) != |net| || |net| < 20 + 8 + MARKER then Refused
      else ParseUdp(true, net[12..20], net[20..], net[1], Verifies(net[..20]), at.tags, Kept4(frame, ip), ip)
    else if at.ether == 0x86dd then
      if |net| < 40 || net[0] / 16 != 6 || net[6] != 17
         || 40 + Be16(net, 4) != |net| || |net| < 40 + 8 + MARKER then Refused
      else ParseUdp(false, net[8..40], net[40..], net[0] % 16 * 16 + net[1] / 16, true, at.tags, Kept6(frame, ip), ip)
    else Refused
  }

  /** The ECN field and the IPv4 checksum blanked. */
  function Kept4(frame: seq<Byte>, ip: nat): seq<Byte>
    requires ip + 20 <= |frame|
  {
    With16(frame[ip + 1 := frame[ip + 1] / 4 * 4], ip + 10, 0)
  }

  function Kept6(frame: seq<Byte>, ip: nat): seq<Byte>
    requires ip + 40 <= |frame|
  {
    frame[ip + 1 := frame[ip + 1] / 64 * 64 + frame[ip + 1] % 16]
  }

  function Parse(frame: seq<Byte>): Parsed {
    if !Contains(frame, MAGIC) then NotAProbe
    else if |frame| < 14 then Refused
    else
      var at := Untag(frame, 14, Be16(frame, 12), []);
      if at.BadTags? then Refused else ParseIp(frame, at)
  }

  /** The tags in front of the network header are the ones before it, at most two. */
  ghost predicate TagsAre(frame: seq<Byte>, tags: seq<(Half, Half)>, ip: nat, ether: Half) {
    && |tags| <= 2 && ip == 14 + 4 * |tags| && ip <= |frame|
    && (forall k :: 0 <= k < |tags| ==>
          tags[k] == (Be16(frame, 12 + 4 * k), Be16(frame, 14 + 4 * k)) && tags[k].0 in {0x8100, 0x88a8})
    && Be16(frame, ip - 2) == ether
  }

  /** A whole, unfragmented IPv4 datagram of protocol UDP without options, or an IPv6 one; `u` is where UDP starts. */
  predicate WholeUdp(frame: seq<Byte>, v4: bool, ip: nat, u: nat) {
    if v4 then
      && u == ip + 20 <= |frame|
      && frame[ip] == 0x45 && frame[ip + 9] == 17
      && ip + Be16(frame, ip + 2) == |frame| && Be16(frame, ip + 6) in {0, 0x4000, 0x8000, 0xc000}
    else
      && u == ip + 40 <= |frame|
      && 0x60 <= frame[ip] < 0x70 && frame[ip + 6] == 17
      && u + Be16(frame, ip + 4) == |frame|
  }

  /** The probe's marker stands right behind a checksummed UDP header. */
  predicate MarkedUdp(frame: seq<Byte>, u: nat) {
    && u + 38 <= |frame|
    && u + Be16(frame, u + 4) == |frame| && Be16(frame, u + 6) != 0
    && frame[u + 8..u + 16] == MAGIC
  }

  /** The record says what the bytes of the frame say: each field at its offset,
      each checksum verified or not. */
  predicate Reports(r: Record, frame: seq<Byte>)
    requires WholeUdp(frame, r.v4, r.ipOffset, r.ipOffset + if r.v4 then 20 else 40)
    requires MarkedUdp(frame, r.ipOffset + if r.v4 then 20 else 40)
  {
    var ip, u := r.ipOffset, r.ipOffset + if r.v4 then 20 else 40;
    && r.key == Key(frame[u + 16..u + 32], frame[u + 32], frame[u + 33], Be32(frame, u + 34))
    && r.sourcePort == Be16(frame, u) && r.destinationPort == Be16(frame, u + 2)
    && r.ipValid == (!r.v4 || Verifies(frame[ip..u]))
    && r.udpValid == Verifies(PseudoHeader(r.v4, frame[u - (if r.v4 then 8 else 32)..u], |frame| - u) + frame[u..])
    && 4 * r.dscp + r.ecn == (if r.v4 then frame[ip + 1] else frame[ip] % 16 * 16 + frame[ip + 1] / 16)
    && 0 <= r.ecn < 4
  }

  /** Whatever the frame, if it is taken for a probe its tags, headers and
      marker are in order, and the record reports them. */
  lemma ProbesAreFound(frame: seq<Byte>)
    requires Parse(frame).Probe?
    ensures var r := Parse(frame).record;
            var u := r.ipOffset + if r.v4 then 20 else 40;
            && TagsAre(frame, r.tags, r.ipOffset, if r.v4 then 0x0800 else 0x86dd)
            && WholeUdp(frame, r.v4, r.ipOffset, u) && MarkedUdp(frame, u) && Reports(r, frame)
  {
    var at := Untag(frame, 14, Be16(frame, 12), []);
    UntaggedAre(frame, 14, Be16(frame, 12), []);
    hide Untag, Reports, WholeUdp, MarkedUdp;
    if at.ether == 0x0800 { Probe4IsFound(frame, at); } else { Probe6IsFound(frame, at); }
  }

  lemma Probe4IsFound(frame: seq<Byte>, at: Untagged)
    requires at.Untagged? && at.offset <= |frame| && at.ether == 0x0800 && ParseIp(frame, at).Probe?
    ensures var r := ParseIp(frame, at).record;
            && r.v4 && r.ipOffset == at.offset && r.tags == at.tags
            && WholeUdp(frame, true, at.offset, at.offset + 20) && MarkedUdp(frame, at.offset + 20) && Reports(r, frame)
  {
    hide Verifies, Kept4, Kept6, PseudoHeader;
    var ip, net := at.offset, frame[at.offset..];
    DatagramAt(frame, ip, ip + 20);
    assert net[..20] == frame[ip..ip + 20];
  }

  lemma Probe6IsFound(frame: seq<Byte>, at: Untagged)
    requires at.Untagged? && at.offset <= |frame| && at.ether != 0x0800 && ParseIp(frame, at).Probe?
    ensures var r := ParseIp(frame, at).record;
            && !r.v4 && r.ipOffset == at.offset && r.tags == at.tags && at.ether == 0x86dd
            && WholeUdp(frame, false, at.offset, at.offset + 40) && MarkedUdp(frame, at.offset + 40) && Reports(r, frame)
  {
    hide Verifies, Kept4, Kept6, PseudoHeader;
    DatagramAt(frame, at.offset, at.offset + 40);
  }

  /** And every such frame is found. */
  lemma MarkedFramesAreProbes(frame: seq<Byte>, v4: bool, tags: seq<(Half, Half)>, ip: nat)
    requires TagsAre(frame, tags, ip, if v4 then 0x0800 else 0x86dd)
    requires WholeUdp(frame, v4, ip, ip + if v4 then 20 else 40)
    requires MarkedUdp(frame, ip + if v4 then 20 else 40)
    ensures Parse(frame).Probe? && Parse(frame).record.v4 == v4
    ensures Parse(frame).record.ipOffset == ip && Parse(frame).record.tags == tags
  {
    hide Verifies, Kept4, Kept6, PseudoHeader;
    var u := ip + if v4 then 20 else 40;
    assert PartAt(frame, MAGIC, u + 8);
    TagsComeOff(frame, tags, 0, ip, if v4 then 0x0800 else 0x86dd);
    assert tags[..0] == [];
    DatagramAt(frame, ip, u);
  }

  lemma {:induction false} TagsComeOff(frame: seq<Byte>, tags: seq<(Half, Half)>, n: nat, ip: nat, ether: Half)
    requires TagsAre(frame, tags, ip, ether) && ether in {0x0800, 0x86dd} && n <= |tags|
    ensures Untag(frame, 14 + 4 * n, Be16(frame, 12 + 4 * n), tags[..n]) == Untagged(ip, ether, tags)
    decreases |tags| - n
  {
    if n < |tags| {
      TagsComeOff(frame, tags, n + 1, ip, ether);
      assert tags[..n + 1] == tags[..n] + [tags[n]];
    } else {
      assert tags[..n] == tags;
    }
  }

  lemma {:induction false} UntaggedAre(frame: seq<Byte>, offset: nat, ether: Half, tags: seq<(Half, Half)>)
    requires TagsAre(frame, tags, offset, ether)
    ensures var at := Untag(frame, offset, ether, tags);
            at.Untagged? ==> TagsAre(frame, at.tags, at.offset, at.ether)
    decreases |frame| - offset
  {
    if EcnCapture.IsTag(ether) && |tags| < 2 && |frame| >= offset + 4 {
      UntaggedAre(frame, offset + 4, Be16(frame, offset + 2), tags + [(ether, Be16(frame, offset))]);
    }
  }

  lemma DatagramAt(frame: seq<Byte>, ip: nat, u: nat)
    requires ip <= u && u + 38 <= |frame|
    ensures var net, d := frame[ip..], frame[ip..][u - ip..];
            && d == frame[u..] && d[8..16] == frame[u + 8..u + 16] && d[16..32] == frame[u + 16..u + 32]
            && net[u - ip - (if u - ip >= 8 then 8 else 0)..u - ip] == frame[u - (if u - ip >= 8 then 8 else 0)..u]
            && (u - ip >= 32 ==> net[u - ip - 32..u - ip] == frame[u - 32..u])
  {
  }

  /** parse_frame: the tags are taken off in a loop. */
  method ParseFrame(frame: seq<Byte>) returns (p: Parsed)
    ensures p == Parse(frame)
  {
    if !Contains(frame, MAGIC) {
      return NotAProbe;
    }
    if |frame| < 14 {
      return Refused;
    }
    var offset: nat, ether: Half, tags: seq<(Half, Half)> := 14, Be16(frame, 12), [];
    while EcnCapture.IsTag(ether)
      invariant offset <= |frame|
      invariant Untag(frame, 14, Be16(frame, 12), []) == Untag(frame, offset, ether, tags)
      decreases |frame| - offset
    {
      if |tags| >= 2 || |frame| < offset + 4 {
        return Refused;
      }
      tags := tags + [(ether, Be16(frame, offset))];
      ether, offset := Be16(frame, offset + 2), offset + 4;
    }
    p := ParseIp(frame, Untagged(offset, ether, tags));
  }

  // ----- round trip ------------------------------------------------------

  lemma UdpVerifies(c: Case, k: Key, filler: seq<Byte>)
    requires |k.run| == 16 && |filler| < 65000
    ensures Verifies(PseudoHeader(c.v4, Addresses(c.v4), |Udp(c, k, filler)|) + Udp(c, k, filler))
    ensures Be16(Udp(c, k, filler), 6) != 0
  {
    var bare := BareUdp(c, k, filler);
    var pseudo := PseudoHeader(c.v4, Addresses(c.v4), |bare|);
    var sum := UdpChecksum(pseudo + bare);
    var i := |pseudo| + 6;
    assert |pseudo| % 2 == 0;
    assert Be16(pseudo + bare, i) == Be16(bare, 6) == 0;
    FilledInVerifies(pseudo + bare, i, sum);
    assert With16(pseudo + bare, i, sum) == pseudo + With16(bare, 6, sum);
  }

  lemma Header4Verifies(tos: Byte, total: Half, id: Half)
    ensures |Header4(tos, total, id)| == 20 && Verifies(Header4(tos, total, id))
  {
    var bare := BareHeader4(tos, total, id);
    assert Be16(bare, 10) == 0;
    FilledInVerifies(bare, 10, Checksum(bare));
  }

  /** The datagram's fields, read at their offsets. */
  lemma UdpFields(c: Case, k: Key, filler: seq<Byte>)
    requires |k.run| == 16 && |filler| < 65000
    ensures var u := Udp(c, k, filler);
            && |u| == 8 + MARKER + |filler|
            && Be16(u, 0) == 49152 + k.caseId && Be16(u, 2) == c.port && Be16(u, 4) == |u|
            && u[8..16] == MAGIC && u[16..32] == k.run && u[32] == k.stage && u[33] == k.caseId
            && Be32(u, 34) == k.sequence
  {
    hide UdpChecksum, PseudoHeader, Marker;
    var u, m := Udp(c, k, filler), Marker(k);
    MarkerFields(k);
    assert u[8..8 + MARKER] == m;
    assert u[8..16] == u[8..8 + MARKER][..8] && u[16..32] == u[8..8 + MARKER][8..24];
    assert u[32] == m[24] && u[33] == m[25];
    assert u[34] == m[26] && u[35] == m[27] && u[36] == m[28] && u[37] == m[29];
  }

  lemma MarkerFields(k: Key)
    requires |k.run| == 16
    ensures var m := Marker(k);
            && |m| == MARKER && m[..8] == MAGIC && m[8..24] == k.run && m[24] == k.stage && m[25] == k.caseId
            && Be32(m, 26) == k.sequence
  {
    var m := Marker(k);
    WordReadsBack(k.sequence);
    assert m[8..24] == k.run;
  }

  lemma DatagramParses(c: Case, k: Key, filler: seq<Byte>, tos: Byte, tags: seq<(Half, Half)>, kept: seq<Byte>, offset: nat)
    requires c.Valid() && |k.run| == 16 && |filler| < 65000 && tos == c.Tos()
    ensures |Udp(c, k, filler)| >= 8 + MARKER
    ensures ParseUdp(c.v4, Addresses(c.v4), Udp(c, k, filler), tos, true, tags, kept, offset)
            == Probe(Record(k, c.v4, c.dscp, c.ecn, tags, 49152 + k.caseId, c.port, true, true, kept, offset))
  {
    UdpFields(c, k, filler);
    UdpVerifies(c, k, filler);
  }

  function LinkLength(c: Case): nat {
    if c.vlan.Some? then 18 else 14
  }

  function Tags(c: Case): seq<(Half, Half)>
    requires c.Valid()
  {
    if c.vlan.Some? then [(0x8100, 0x6000 + c.vlan.value)] else []
  }

  lemma LinkParses(c: Case, net: seq<Byte>)
    requires c.Valid()
    ensures var frame := LinkHeader(c) + net;
            && |LinkHeader(c)| == LinkLength(c)
            && Untag(frame, 14, Be16(frame, 12), [])
               == Untagged(LinkLength(c), if c.v4 then 0x0800 else 0x86dd, Tags(c))
  {
    var frame := LinkHeader(c) + net;
    if c.vlan.Some? {
      assert Be16(frame, 12) == 0x8100 && Be16(frame, 14) == 0x6000 + c.vlan.value;
      assert [] + [(0x8100, 0x6000 + c.vlan.value)] == Tags(c);
    }
  }

  /** What parsing a made frame gives: every field, both checksums valid. */
  lemma FramesReadBack(c: Case, k: Key, filler: seq<Byte>)
    requires c.Valid() && |filler| < 65000 && MakeProbe(c, k, filler).Some?
    ensures var frame, ip := MakeProbe(c, k, filler).value, LinkLength(c);
            && ip + (if c.v4 then 20 else 40) <= |frame|
            && Parse(frame) == Probe(Record(k, c.v4, c.dscp, c.ecn, Tags(c), 49152 + k.caseId, c.port, true, true,
                                            if c.v4 then Kept4(frame, ip) else Kept6(frame, ip), ip))
  {
    var u := Udp(c, k, filler);
    var length := 8 + MARKER + |filler|;
    var h := Header(c, k, length);
    var frame := MakeFrame(c, k, filler);
    LinkParses(c, h + u);
    var ip := LinkLength(c);
    UdpFields(c, k, filler);
    assert frame[ip..] == h + u;
    FrameContainsMagic(c, k, filler);
    if c.v4 {
      NetParses4(c, k, filler, frame);
    } else {
      NetParses6(c, k, filler, frame);
    }
  }

  lemma FrameContainsMagic(c: Case, k: Key, filler: seq<Byte>)
    requires c.Valid() && |k.run| == 16 && |filler| < 65000
    ensures Contains(MakeFrame(c, k, filler), MAGIC)
  {
    hide Udp, Header, LinkHeader;
    UdpFields(c, k, filler);
    var before, u := LinkHeader(c) + Header(c, k, 8 + MARKER + |filler|), Udp(c, k, filler);
    assert MakeFrame(c, k, filler) == before + u;
    PartContained(before, u);
  }

  lemma PartContained(before: seq<Byte>, u: seq<Byte>)
    requires |u| >= 16 && u[8..16] == MAGIC
    ensures Contains(before + u, MAGIC)
  {
    var frame, i := before + u, |before| + 8;
    assert frame[i..i + 8] == u[8..16];
    assert PartAt(frame, MAGIC, i);
  }

  lemma NetParses4(c: Case, k: Key, filler: seq<Byte>, frame: seq<Byte>)
    requires c.Valid() && c.v4 && |k.run| == 16 && |filler| < 65000
    requires |frame| >= LinkLength(c)
    requires frame[LinkLength(c)..] == Header(c, k, 8 + MARKER + |filler|) + Udp(c, k, filler)
    ensures LinkLength(c) + 20 <= |frame|
    ensures ParseIp(frame, Untagged(LinkLength(c), 0x0800, Tags(c)))
            == Probe(Record(k, true, c.dscp, c.ecn, Tags(c), 49152 + k.caseId, c.port, true, true,
                            Kept4(frame, LinkLength(c)), LinkLength(c)))
  {
    hide Udp, Header4, Kept4, Verifies, ParseUdp;
    var u, net := Udp(c, k, filler), frame[LinkLength(c)..];
    UdpFields(c, k, filler);
    var total, id := 20 + |u|, k.sequence % 0x1_0000;
    var h := Header4(c.Tos(), total, id);
    Header4Verifies(c.Tos(), total, id);
    Header4Fields(c.Tos(), total, id);
    assert net[..20] == h && net[20..] == u && net[12..20] == h[12..20];
    DatagramParses(c, k, filler, c.Tos(), Tags(c), Kept4(frame, LinkLength(c)), LinkLength(c));
  }

  lemma Header4Fields(tos: Byte, total: Half, id: Half)
    ensures var h := Header4(tos, total, id);
            && |h| == 20 && h[0] == 0x45 && h[1] == tos && h[8] == 64 && h[9] == 17
            && Be16(h, 2) == total && Be16(h, 4) == id
            && Be16(h, 6) == 0x4000 && h[12..20] == IPV4
  {
    var bare, h := BareHeader4(tos, total, id), Header4(tos, total, id);
    assert bare[12..20] == IPV4 && h[12..20] == bare[12..20];
  }

  lemma NetParses6(c: Case, k: Key, filler: seq<Byte>, frame: seq<Byte>)
    requires c.Valid() && !c.v4 && |k.run| == 16 && |filler| < 65000
    requires |frame| >= LinkLength(c)
    requires frame[LinkLength(c)..] == Header(c, k, 8 + MARKER + |filler|) + Udp(c, k, filler)
    ensures LinkLength(c) + 40 <= |frame|
    ensures ParseIp(frame, Untagged(LinkLength(c), 0x86dd, Tags(c)))
            == Probe(Record(k, false, c.dscp, c.ecn, Tags(c), 49152 + k.caseId, c.port, true, true,
                            Kept6(frame, LinkLength(c)), LinkLength(c)))
  {
    hide Udp, Header6, Kept6, Verifies, ParseUdp;
    var u, net := Udp(c, k, filler), frame[LinkLength(c)..];
    UdpFields(c, k, filler);
    var h := Header6(c.Tos(), |u|);
    Header6Fields(c.Tos(), |u|);
    assert net[..40] == h && net[40..] == u && net[8..40] == h[8..40];
    DatagramParses(c, k, filler, c.Tos(), Tags(c), Kept6(frame, LinkLength(c)), LinkLength(c));
  }

  lemma Header6Fields(tos: Byte, length: Half)
    ensures var h := Header6(tos, length);
            && |h| == 40 && h[0] / 16 == 6 && h[6] == 17 && h[7] == 64 && Be16(h, 4) == length && h[8..40] == IPV6
            && h[0] % 16 * 16 + h[1] / 16 == tos
  {
    assert Header6(tos, length)[8..40] == IPV6;
  }

  /** Marking does not disturb what is compared: frames that differ only in ECN keep the same bytes. */
  lemma KeptIgnoresEcn(c: Case, ecn: int, k: Key, filler: seq<Byte>)
    requires c.Valid() && 0 <= ecn < 4 && |k.run| == 16 && |filler| < 65000
    ensures var a, b := MakeFrame(c, k, filler), MakeFrame(c.(ecn := ecn), k, filler);
            var ip := LinkLength(c);
            && ip + (if c.v4 then 20 else 40) <= |a| == |b|
            && if c.v4 then Kept4(a, ip) == Kept4(b, ip) else Kept6(a, ip) == Kept6(b, ip)
  {
    OthersIgnoreEcn(c, ecn, k, filler);
    hide Udp, LinkHeader, Header4, Header6, Kept4, Kept6;
    var d := c.(ecn := ecn);
    var u, length := Udp(c, k, filler), 8 + MARKER + |filler|;
    LinkParses(c, []);
    if c.v4 {
      Kept4Alike(LinkHeader(c), c.Tos(), d.Tos(), 20 + length, k.sequence % 0x1_0000, u);
    } else {
      Kept6Alike(LinkHeader(c), c.Tos(), d.Tos(), length, u);
    }
  }

  lemma OthersIgnoreEcn(c: Case, ecn: int, k: Key, filler: seq<Byte>)
    requires c.Valid() && 0 <= ecn < 4 && |k.run| == 16 && |filler| < 65000
    ensures var d := c.(ecn := ecn);
            Udp(c, k, filler) == Udp(d, k, filler) && LinkHeader(c) == LinkHeader(d)
  {
    var d := c.(ecn := ecn);
    assert BareUdp(c, k, filler) == BareUdp(d, k, filler);
  }

  lemma Kept4Alike(link: seq<Byte>, s: Byte, t: Byte, total: Half, id: Half, u: seq<Byte>)
    requires s / 4 == t / 4
    ensures |Header4(s, total, id)| == |Header4(t, total, id)| == 20
    ensures Kept4(link + (Header4(s, total, id) + u), |link|) == Kept4(link + (Header4(t, total, id) + u), |link|)
  {
    var h, g := Header4(s, total, id), Header4(t, total, id);
    var a, b := link + (h + u), link + (g + u);
    assert forall i: nat :: i < 20 && i !in {1, 10, 11} ==> h[i] == g[i];
    assert h[1] == s && g[1] == t;
    assert forall i: nat :: i < |a| && i !in {|link| + 1, |link| + 10, |link| + 11} ==> a[i] == b[i];
  }

  lemma Kept6Alike(link: seq<Byte>, s: Byte, t: Byte, length: Half, u: seq<Byte>)
    requires s / 4 == t / 4
    ensures |Header6(s, length)| == |Header6(t, length)| == 40
    ensures Kept6(link + (Header6(s, length) + u), |link|) == Kept6(link + (Header6(t, length) + u), |link|)
  {
    Header6Is(s, length);
    Header6Is(t, length);
    hide Header6, Kept6, Tail6;
    Kept6Is(link, 0x60 + s / 16, s % 16 * 16 + 1, Tail6(length), u);
    Kept6Is(link, 0x60 + t / 16, t % 16 * 16 + 1, Tail6(length), u);
    TosAlike(s, t);
  }

  /** Where the traffic class lands in the IPv6 header, ECN is the two bits that are blanked. */
  lemma TosAlike(s: Byte, t: Byte)
    requires s / 4 == t / 4
    ensures s / 16 == t / 16
    ensures (s % 16 * 16 + 1) / 64 * 64 + (s % 16 * 16 + 1) % 16 == (t % 16 * 16 + 1) / 64 * 64 + (t % 16 * 16 + 1) % 16
  {
    TosParts(s);
    TosParts(t);
  }

  lemma TosParts(s: Byte)
    ensures s / 16 == s / 4 / 4 && (s % 16 * 16 + 1) / 64 == s / 4 % 4 && (s % 16 * 16 + 1) % 16 == 1
  {
    var a, e := s / 4, s % 4;
    var q, r := a / 4, a % 4;
    assert s == 16 * q + (4 * r + e) && s % 16 == 4 * r + e;
    assert s % 16 * 16 + 1 == 64 * r + (16 * e + 1);
  }

  function Tail6(length: Half): seq<Byte> {
    [0x23, 0x45] + Put16(length) + [17, 64] + IPV6
  }

  lemma Header6Is(tos: Byte, length: Half)
    ensures |Tail6(length)| == 38 && Header6(tos, length) == [0x60 + tos / 16, tos % 16 * 16 + 1] + Tail6(length)
  {
  }

  lemma Kept6Is(link: seq<Byte>, a: Byte, b: Byte, tail: seq<Byte>, u: seq<Byte>)
    requires |tail| == 38
    ensures Kept6(link + ([a, b] + tail + u), |link|) == link + ([a, b / 64 * 64 + b % 16] + tail + u)
  {
  }
}
