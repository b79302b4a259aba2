/**
 * RoCE packets across a marking queue: what the capture verifier decodes, and
 * what the probe's CE rewrite must leave alone.
 */
module EcnCapture {
  import opened Common
  import opened InternetChecksum

  /** Everything the verifier keeps of a packet; `kept` has the ECN bits and IP checksum blanked. */
  datatype Packet = Packet(
    source: seq<Byte>, destination: seq<Byte>, sport: Half, dport: Half, qpn: nat, psn: nat,
    opcode: Byte, dscp: nat, ecn: nat, kept: seq<Byte>)

  const VLAN_TAG := 0x8100
  const SERVICE_TAG := 0x88a8
  const ROCE_PORT := 4791

  predicate IsTag(ether: int) { ether == VLAN_TAG || ether == SERVICE_TAG }

  /** Where the network header starts, and of what type it is. */
  datatype Located = Located(offset: nat, ether: Half)

  function SkipTags(raw: seq<Byte>, at: Located): (r: Located)
    requires at.offset <= |raw|
    ensures at.offset <= r.offset <= |raw|
    decreases |raw| - at.offset
  {
    if IsTag(at.ether) && |raw| >= at.offset + 4
    then SkipTags(raw, Located(at.offset + 4, Be16(raw, at.offset + 2)))
    else at
  }

  /** Three bytes, big-endian. */
  function Be24(s: seq<Byte>, i: nat): nat
    requires i + 2 < |s|
  {
    (s[i] as int) * 0x1_0000 + (s[i + 1] as int) * 0x100 + (s[i + 2] as int)
  }

  function Pseudo(raw: seq<Byte>, ip: nat, length: Half): seq<Byte>
    requires ip + 20 <= |raw|
  {
    raw[ip + 12..ip + 20] + [0, 17] + Put16(length)
  }

  /** The ECN field cleared and the checksum blanked. */
  function Blanked(raw: seq<Byte>, ip: nat): seq<Byte>
    requires ip + 20 <= |raw|
  {
    With16(raw[ip + 1 := raw[ip + 1] / 4 * 4], ip + 10, 0)
  }

  function HeaderLength(raw: seq<Byte>, ip: nat): nat
    requires ip + 20 <= |raw|
  {
    raw[ip] % 16 * 4
  }

  /** The checks up to the UDP header. */
  predicate Ipv4Ok(raw: seq<Byte>, ip: nat) {
    && ip + 20 <= |raw| && raw[ip] / 16 == 4
    && var ihl, total := HeaderLength(raw, ip), Be16(raw, ip + 2);
       && ihl >= 20 && total >= ihl + 24 && |raw| >= ip + total
       && raw[ip + 9] == 17 && Be16(raw, ip + 6) % 0x4000 == 0
       && Verifies(raw[ip..ip + ihl])
  }

  predicate UdpOk(raw: seq<Byte>, ip: nat)
    requires Ipv4Ok(raw, ip)
  {
    var ihl := HeaderLength(raw, ip);
    var udp, length := ip + ihl, Be16(raw, ip + ihl + 4);
    && Be16(raw, udp + 2) == ROCE_PORT && length == Be16(raw, ip + 2) - ihl
    && (Be16(raw, udp + 6) != 0 ==> Verifies(Pseudo(raw, ip, length) + raw[udp..udp + length]))
  }

  function DecodeAt(raw: seq<Byte>, ip: nat): Option<Packet> {
    if !Ipv4Ok(raw, ip) || !UdpOk(raw, ip) then None
    else
      var udp := ip + HeaderLength(raw, ip);
      var bth := udp + 8;
      Some(Packet(raw[ip + 12..ip + 16], raw[ip + 16..ip + 20], Be16(raw, udp), Be16(raw, udp + 2),
                  Be24(raw, bth + 5), Be24(raw, bth + 9), raw[bth],
                  raw[ip + 1] / 4, raw[ip + 1] % 4, Blanked(raw, ip)))
  }

  /** The IPv4 offset, if this is an IPv4 frame. */
  function Ipv4At(raw: seq<Byte>): Option<nat> {
    if |raw| < 14 then None
    else
      var at := SkipTags(raw, Located(14, Be16(raw, 12)));
      if at.ether == 0x0800 then Some(at.offset) else None
  }

  /** What decode accepts. */
  function Decoded(raw: seq<Byte>): Option<Packet> {
    var ip := Ipv4At(raw);
    if ip.None? then None else DecodeAt(raw, ip.value)
  }

  /** decode: the offset advances tag by tag; the copy is blanked in place. */
  method Decode(raw: seq<Byte>) returns (r: Option<Packet>)
    ensures r == Decoded(raw)
  {
    if |raw| < 14 {
      return None;
    }
    var offset: nat, ether: Half := 14, Be16(raw, 12);
    while IsTag(ether) && |raw| >= offset + 4
      invariant offset <= |raw|
      invariant SkipTags(raw, Located(14, Be16(raw, 12))) == SkipTags(raw, Located(offset, ether))
      decreases |raw| - offset
    {
      ether, offset := Be16(raw, offset + 2), offset + 4;
    }
    if ether != 0x0800 {
      return None;
    }
    r := DecodeAt(raw, offset);
  }

  // ----- what a RoCE packet is --------------------------------------------

  /** A RoCEv2 packet over IPv4, field by field: `ip` is the whole header, `transport`
      what stands between opcode and queue pair, `rest` the payload and ICRC,
      `trailer` any padding of the frame. */
  datatype Parts = Parts(macs: seq<Byte>, tags: seq<(Half, Half)>, ip: seq<Byte>, sport: Half, sum: Half,
                         opcode: Byte, transport: seq<Byte>, qpn: nat, ack: Byte, psn: nat,
                         rest: seq<Byte>, trailer: seq<Byte>)
  {
    predicate WellFormed() {
      && |macs| == 12 && (forall tag <- tags :: tag.0 in {0x8100, 0x88a8})
      && |transport| == 4 && |rest| >= 4 && qpn < 0x100_0000 && psn < 0x100_0000
      && 20 + |rest| < 0x1_0000
      && HeaderFits() && SumFits()
    }

    /** The IPv4 header says so, and verifies. */
    predicate HeaderFits() {
      && 20 <= |ip| <= 60 && ip[0] == 0x40 + |ip| / 4 && |ip| % 4 == 0
      && Be16(ip, 2) == |ip| + 20 + |rest| && Be16(ip, 6) in {0, 0x4000, 0x8000, 0xc000} && ip[9] == 17
      && Verifies(ip)
    }

    /** No UDP checksum, or one that verifies. */
    predicate SumFits()
      requires |ip| >= 20 && 20 + |rest| < 0x1_0000 && qpn < 0x100_0000 && psn < 0x100_0000
    {
      sum == 0 || Verifies(ip[12..20] + [0, 17] + Put16(20 + |rest|) + Datagram())
    }

    function Datagram(): seq<Byte>
      requires 20 + |rest| < 0x1_0000 && qpn < 0x100_0000 && psn < 0x100_0000
    {
      Put16(sport) + Put16(4791) + Put16(20 + |rest|) + Put16(sum) + [opcode] + transport + Numbers() + rest
    }

    /** Queue pair and sequence number, three bytes each, highest first. */
    function Numbers(): seq<Byte>
      requires qpn < 0x100_0000 && psn < 0x100_0000
    {
      [qpn / 0x1_0000, qpn / 0x100 % 0x100, qpn % 0x100, ack, psn / 0x1_0000, psn / 0x100 % 0x100, psn % 0x100]
    }

    function Link(): seq<Byte> {
      macs + TagBytes(tags) + [0x08, 0x00]
    }

    function Frame(): seq<Byte>
      requires WellFormed()
    {
      Link() + ip + Datagram() + trailer
    }

    /** The same without ECN and IP checksum. */
    function Kept(): seq<Byte>
      requires WellFormed()
    {
      Link() + With16(ip[1 := ip[1] / 4 * 4], 10, 0) + Datagram() + trailer
    }
  }

  lemma ThreeBytes(v: nat)
    requires v < 0x100_0000
    ensures v / 0x1_0000 * 0x1_0000 + v / 0x100 % 0x100 * 0x100 + v % 0x100 == v
  {
    var a, b := v / 0x1_0000, v / 0x100;
    assert b == a * 0x100 + b % 0x100 && v == b * 0x100 + v % 0x100;
  }

  function TagBytes(tags: seq<(Half, Half)>): (bytes: seq<Byte>)
    ensures |bytes| == 4 * |tags|
  {
    if tags == [] then [] else Put16(tags[0].0) + Put16(tags[0].1) + TagBytes(tags[1..])
  }

  /** Any number of tags is skipped. */
  lemma {:induction false} LinkIsSkipped(raw: seq<Byte>, tags: seq<(Half, Half)>, offset: nat)
    requires forall tag <- tags :: tag.0 in {0x8100, 0x88a8}
    requires 2 <= offset && offset + 4 * |tags| <= |raw|
    requires raw[offset - 2..offset + 4 * |tags|] == TagBytes(tags) + [0x08, 0x00]
    ensures SkipTags(raw, Located(offset, Be16(raw, offset - 2))) == Located(offset + 4 * |tags|, 0x0800)
  {
    var link := raw[offset - 2..offset + 4 * |tags|];
    assert link[0] == raw[offset - 2] && link[1] == raw[offset - 1];
    if tags != [] {
      assert Be16(raw, offset - 2) == tags[0].0;
      assert link[4..] == TagBytes(tags[1..]) + [0x08, 0x00];
      assert link[4..] == raw[offset + 2..offset + 4 + 4 * |tags[1..]|];
      LinkIsSkipped(raw, tags[1..], offset + 4);
    }
  }

  /** The pieces of a frame, found again by their lengths. */
  lemma PiecesAre(p: Parts)
    requires p.WellFormed()
    ensures var raw, at := p.Frame(), |p.Link()|;
            var udp := at + |p.ip|;
            && raw[..at] == p.Link() && raw[at..udp] == p.ip
            && raw[udp..udp + 20 + |p.rest|] == p.Datagram()
            && raw[at + 12..at + 20] == p.ip[12..20]
  {
    hide Verifies;
    var raw, at := p.Frame(), |p.Link()|;
    assert raw[at + 12..at + 20] == raw[at..at + |p.ip|][12..20];
  }

  lemma ByteByByte(raw: seq<Byte>, at: nat, piece: seq<Byte>)
    requires at + |piece| <= |raw| && raw[at..at + |piece|] == piece
    ensures forall k: nat | k < |piece| :: piece[k] == raw[at + k]
  {
  }

  /** The datagram's fields stand where the InfiniBand base transport header has them. */
  lemma DatagramFields(p: Parts)
    requires p.WellFormed()
    ensures var d := p.Datagram();
            && |d| == 20 + |p.rest|
            && Be16(d, 0) == p.sport && Be16(d, 2) == 4791 && Be16(d, 4) == |d| && Be16(d, 6) == p.sum
            && d[8] == p.opcode && Be24(d, 13) == p.qpn && Be24(d, 17) == p.psn
  {
    hide Verifies;
    var d, n := p.Datagram(), p.Numbers();
    ThreeBytes(p.qpn);
    ThreeBytes(p.psn);
    assert d[8] == p.opcode && d[13..20] == n;
    ByteByByte(d, 13, n);
    assert Be24(n, 0) == p.qpn && Be24(n, 4) == p.psn;
    assert n[0] == d[13] && n[1] == d[14] && n[2] == d[15] && n[4] == d[17] && n[5] == d[18] && n[6] == d[19];
  }

  lemma LinkIsFound(p: Parts)
    requires p.WellFormed()
    ensures Ipv4At(p.Frame()) == Some(|p.Link()|)
  {
    hide Verifies;
    var raw := p.Frame();
    assert raw[12..14 + 4 * |p.tags|] == TagBytes(p.tags) + [0x08, 0x00];
    LinkIsSkipped(raw, p.tags, 14);
  }

  lemma HeaderInPlace(raw: seq<Byte>, at: nat, ip: seq<Byte>)
    requires 20 <= |ip| <= 60 && at + |ip| <= |raw| && raw[at..at + |ip|] == ip
    requires ip[0] == 0x40 + |ip| / 4 && |ip| % 4 == 0 && |ip| + 24 <= Be16(ip, 2) && at + Be16(ip, 2) <= |raw|
    requires Be16(ip, 6) in {0, 0x4000, 0x8000, 0xc000} && ip[9] == 17 && Verifies(ip)
    ensures Ipv4Ok(raw, at) && HeaderLength(raw, at) == |ip|
  {
    hide Verifies;
    ByteByByte(raw, at, ip);
  }

  lemma HeaderIsFound(p: Parts)
    requires p.WellFormed()
    ensures Ipv4Ok(p.Frame(), |p.Link()|) && HeaderLength(p.Frame(), |p.Link()|) == |p.ip|
  {
    hide Verifies, Ipv4Ok;
    PiecesAre(p);
    HeaderInPlace(p.Frame(), |p.Link()|, p.ip);
  }

  /** A header and a datagram are read where they stand. */
  lemma ReadInPlace(raw: seq<Byte>, at: nat, ip: seq<Byte>, d: seq<Byte>)
    requires 20 <= |ip| && 20 <= |d| && at + |ip| + |d| <= |raw|
    requires raw[at..at + |ip|] == ip && raw[at + |ip|..at + |ip| + |d|] == d
    ensures var udp := at + |ip|;
            && raw[at + 1] == ip[1] && Be16(raw, at + 2) == Be16(ip, 2)
            && raw[at + 12..at + 16] == ip[12..16] && raw[at + 16..at + 20] == ip[16..20]
            && Be16(raw, udp) == Be16(d, 0) && Be16(raw, udp + 2) == Be16(d, 2)
            && Be16(raw, udp + 4) == Be16(d, 4) && Be16(raw, udp + 6) == Be16(d, 6)
            && raw[udp + 8] == d[8] && Be24(raw, udp + 13) == Be24(d, 13) && Be24(raw, udp + 17) == Be24(d, 17)
  {
    ByteByByte(raw, at, ip);
    ByteByByte(raw, at + |ip|, d);
    assert raw[at + 12..at + 16] == raw[at..at + |ip|][12..16];
    assert raw[at + 16..at + 20] == raw[at..at + |ip|][16..20];
  }

  /** The header's addresses and type of service, and the datagram's fields, where they are in the frame. */
  lemma FieldsAreFound(p: Parts)
    requires p.WellFormed()
    ensures var raw, at, udp := p.Frame(), |p.Link()|, |p.Link()| + |p.ip|;
            && udp + 20 <= |raw|
            && raw[at + 1] == p.ip[1] && Be16(raw, at + 2) == |p.ip| + |p.Datagram()|
            && raw[at + 12..at + 16] == p.ip[12..16] && raw[at + 16..at + 20] == p.ip[16..20]
            && Be16(raw, udp) == p.sport && Be16(raw, udp + 2) == 4791
            && Be16(raw, udp + 4) == |p.Datagram()| && Be16(raw, udp + 6) == p.sum
            && raw[udp + 8] == p.opcode && Be24(raw, udp + 13) == p.qpn && Be24(raw, udp + 17) == p.psn
  {
    PiecesAre(p);
    DatagramFields(p);
    hide Verifies, Be16, Be24, Put16, TagBytes;
    ReadInPlace(p.Frame(), |p.Link()|, p.ip, p.Datagram());
  }

  lemma DatagramInPlace(raw: seq<Byte>, at: nat, udp: nat, addresses: seq<Byte>, d: seq<Byte>, sum: Half)
    requires Ipv4Ok(raw, at) && udp == at + HeaderLength(raw, at) && 20 <= |d| < 0x1_0000
    requires udp + |d| <= |raw| && raw[udp..udp + |d|] == d && raw[at + 12..at + 20] == addresses
    requires at + Be16(raw, at + 2) == udp + |d| && Be16(raw, udp + 2) == 4791 && Be16(raw, udp + 4) == |d|
    requires Be16(raw, udp + 6) == sum && (sum == 0 || Verifies(addresses + [0, 17] + Put16(|d|) + d))
    ensures UdpOk(raw, at)
  {
    hide Verifies, Put16, Be16, Ipv4Ok;
  }

  lemma DatagramIsFound(p: Parts)
    requires p.WellFormed() && Ipv4Ok(p.Frame(), |p.Link()|) && HeaderLength(p.Frame(), |p.Link()|) == |p.ip|
    ensures UdpOk(p.Frame(), |p.Link()|)
  {
    hide Verifies, Ipv4Ok, UdpOk, HeaderLength, Put16, Be16, TagBytes;
    PiecesAre(p);
    FieldsAreFound(p);
    DatagramFields(p);
    var raw, at, d := p.Frame(), |p.Link()|, p.Datagram();
    assert p.sum == 0 || Verifies(p.ip[12..20] + [0, 17] + Put16(|d|) + d);
    DatagramInPlace(raw, at, at + |p.ip|, p.ip[12..20], d, p.sum);
  }

  lemma KeptIsBlanked(p: Parts)
    requires p.WellFormed()
    ensures |p.Link()| + 20 <= |p.Frame()| && Blanked(p.Frame(), |p.Link()|) == p.Kept()
  {
    hide Verifies;
    var raw, at := p.Frame(), |p.Link()|;
    assert raw[at + 1] == p.ip[1];
  }

  /** Every packet put together this way is decoded to exactly its fields. */
  lemma PacketsAreDecoded(p: Parts)
    requires p.WellFormed()
    ensures Decoded(p.Frame()) ==
            Some(Packet(p.ip[12..16], p.ip[16..20], p.sport, 4791, p.qpn, p.psn, p.opcode,
                        p.ip[1] / 4, p.ip[1] % 4, p.Kept()))
  {
    hide Verifies, Blanked, Ipv4Ok, UdpOk, Ipv4At;
    LinkIsFound(p);
    HeaderIsFound(p);
    DatagramIsFound(p);
    KeptIsBlanked(p);
    FieldsAreFound(p);
  }

  lemma {:induction false} TagsIn(raw: seq<Byte>, at: Located) returns (tags: seq<(Half, Half)>)
    requires 2 <= at.offset <= |raw| && Be16(raw, at.offset - 2) == at.ether && SkipTags(raw, at).ether == 0x0800
    ensures forall tag <- tags :: tag.0 in {0x8100, 0x88a8}
    ensures raw[at.offset - 2..SkipTags(raw, at).offset] == TagBytes(tags) + [0x08, 0x00]
    decreases |raw| - at.offset
  {
    var i := at.offset;
    Put16Back(raw, i - 2);
    if IsTag(at.ether) && |raw| >= i + 4 {
      Put16Back(raw, i);
      var rest := TagsIn(raw, Located(i + 4, Be16(raw, i + 2)));
      tags := [(at.ether, Be16(raw, i))] + rest;
      assert tags[1..] == rest;
      var end := SkipTags(raw, at).offset;
      assert raw[i - 2..end] == raw[i - 2..i] + raw[i..i + 2] + raw[i + 2..end];
    } else {
      tags := [];
    }
  }

  lemma Put16Back(raw: seq<Byte>, i: nat)
    requires i + 1 < |raw|
    ensures Put16(Be16(raw, i)) == raw[i..i + 2]
  {
  }

  lemma HeaderTakenApart(raw: seq<Byte>, at: nat, ip: seq<Byte>)
    requires Ipv4Ok(raw, at) && ip == raw[at..at + HeaderLength(raw, at)]
    ensures 20 <= |ip| <= 60 && |ip| % 4 == 0 && ip[0] == 0x40 + |ip| / 4
    ensures Be16(ip, 2) == Be16(raw, at + 2) && ip[9] == 17 && Be16(ip, 6) in {0, 0x4000, 0x8000, 0xc000}
    ensures Verifies(ip)
  {
    hide Verifies;
    ByteByByte(raw, at, ip);
    assert Be16(raw, at + 6) == Be16(ip, 6);
  }

  lemma DatagramTakenApart(raw: seq<Byte>, udp: nat, end: nat, p: Parts)
    requires udp + 24 <= end <= |raw| && end - udp < 0x1_0000
    requires Be16(raw, udp + 2) == 4791 && Be16(raw, udp + 4) == end - udp
    requires p.sport == Be16(raw, udp) && p.sum == Be16(raw, udp + 6) && p.opcode == raw[udp + 8]
    requires p.transport == raw[udp + 9..udp + 13] && p.qpn == Be24(raw, udp + 13) && p.ack == raw[udp + 16]
    requires p.psn == Be24(raw, udp + 17) && p.rest == raw[udp + 20..end]
    ensures p.qpn < 0x100_0000 && p.psn < 0x100_0000 && p.Datagram() == raw[udp..end]
  {
    Be24Apart(raw, udp + 13);
    Be24Apart(raw, udp + 17);
    Put16Back(raw, udp);
    Put16Back(raw, udp + 2);
    Put16Back(raw, udp + 4);
    Put16Back(raw, udp + 6);
    assert p.Numbers() == raw[udp + 13..udp + 20];
    hide Be16, Be24, Put16;
    assert raw[udp..end] == raw[udp..udp + 2] + raw[udp + 2..udp + 4] + raw[udp + 4..udp + 6] + raw[udp + 6..udp + 8]
                            + [raw[udp + 8]] + raw[udp + 9..udp + 13] + raw[udp + 13..udp + 20] + raw[udp + 20..end];
  }

  lemma Be24Apart(raw: seq<Byte>, i: nat)
    requires i + 2 < |raw|
    ensures var v := Be24(raw, i);
            v < 0x100_0000 && v / 0x1_0000 == raw[i] && v / 0x100 % 0x100 == raw[i + 1] && v % 0x100 == raw[i + 2]
  {
    var v := Be24(raw, i);
    assert v / 0x100 == (raw[i] as int) * 0x100 + (raw[i + 1] as int);
  }

  /** The pieces of a frame whose IPv4 header is at `at`. */
  function Apart(raw: seq<Byte>, at: nat, tags: seq<(Half, Half)>): Parts
    requires 14 <= at && Ipv4Ok(raw, at)
  {
    var udp := at + HeaderLength(raw, at);
    var end := at + Be16(raw, at + 2);
    Parts(raw[..12], tags, raw[at..udp], Be16(raw, udp), Be16(raw, udp + 6), raw[udp + 8], raw[udp + 9..udp + 13],
          Be24(raw, udp + 13), raw[udp + 16], Be24(raw, udp + 17), raw[udp + 20..end], raw[end..])
  }

  lemma ApartIs(raw: seq<Byte>, at: nat, tags: seq<(Half, Half)>)
    requires 14 <= at && Ipv4Ok(raw, at) && UdpOk(raw, at)
    ensures var p := Apart(raw, at, tags);
            var udp, end := at + HeaderLength(raw, at), at + Be16(raw, at + 2);
            && p.HeaderFits() && udp == at + |p.ip| && udp + 24 <= end <= |raw| && 20 + |p.rest| == end - udp < 0x1_0000
            && p.qpn < 0x100_0000 && p.psn < 0x100_0000 && p.Datagram() == raw[udp..end] && p.SumFits()
  {
    hide Verifies;
    var p := Apart(raw, at, tags);
    var udp, end := at + HeaderLength(raw, at), at + Be16(raw, at + 2);
    HeaderTakenApart(raw, at, p.ip);
    DatagramTakenApart(raw, udp, end, p);
    assert raw[at + 12..at + 20] == p.ip[12..20];
    hide Be16, Be24, Put16;
    assert Pseudo(raw, at, end - udp) == p.ip[12..20] + [0, 17] + Put16(20 + |p.rest|);
  }

  /** Nothing else is accepted: whatever is decoded can be taken apart this way. */
  lemma DecodedArePackets(raw: seq<Byte>) returns (p: Parts)
    requires Decoded(raw).Some?
    ensures p.WellFormed() && p.Frame() == raw
  {
    hide Verifies, SkipTags, TagBytes, Ipv4Ok, UdpOk, Be16, Be24;
    var at := Ipv4At(raw).value;
    var tags := TagsIn(raw, Located(14, Be16(raw, 12)));
    p := Apart(raw, at, tags);
    ApartIs(raw, at, tags);
    assert p.Link() == raw[..at] by {
      assert raw[..at] == raw[..12] + raw[12..at];
    }
  }

  // ----- the CE rewrite --------------------------------------------------

  /** The frame with ECN 3 and its IPv4 checksum repaired. */
  function Marked(raw: seq<Byte>, ip: nat, ihl: nat): seq<Byte>
    requires 20 <= ihl && ip + ihl <= |raw|
  {
    var blank := With16(raw[ip + 1 := raw[ip + 1] / 4 * 4 + 3], ip + 10, 0);
    With16(blank, ip + 10, Checksum(blank[ip..ip + ihl]))
  }

  /** The rewrite as the probe does it, on its own copy. */
  method MarkInPlace(marked: array<Byte>, ip: nat, ihl: nat)
    requires 20 <= ihl && ihl % 2 == 0 && ip + ihl <= marked.Length
    modifies marked
    ensures marked[..] == Marked(old(marked[..]), ip, ihl)
  {
    ghost var raw := marked[..];
    marked[ip + 1] := marked[ip + 1] / 4 * 4 + 3;
    marked[ip + 10], marked[ip + 11] := 0, 0;
    ghost var blank := With16(raw[ip + 1 := raw[ip + 1] / 4 * 4 + 3], ip + 10, 0);
    assert marked[..] == blank;
    var total := SumWords(marked[ip..ip + ihl]);
    assert marked[ip..ip + ihl] == blank[ip..ip + ihl];
    total := Fold(total);
    var check: Half := 65535 - total;
    marked[ip + 10], marked[ip + 11] := check / 0x100, check % 0x100;
    assert marked[..] == With16(blank, ip + 10, check);
  }

  /** Two frames that differ at most in the ECN byte and the checksum of the header at ip. */
  predicate SameButEcn(a: seq<Byte>, b: seq<Byte>, ip: nat) {
    && |a| == |b| && ip + 20 <= |a|
    && forall i: nat | i < |a| :: i != ip + 1 && i != ip + 10 && i != ip + 11 ==> a[i] == b[i]
  }

  lemma MarkingIsLocal(raw: seq<Byte>, ip: nat, ihl: nat)
    requires 20 <= ihl && ip + ihl <= |raw|
    ensures SameButEcn(raw, Marked(raw, ip, ihl), ip)
    ensures Marked(raw, ip, ihl)[ip + 1] == raw[ip + 1] / 4 * 4 + 3
    ensures raw[ip + 1] % 4 == 2 ==> Marked(raw, ip, ihl)[ip + 1] == raw[ip + 1] + 1
  {
  }

  /** The tags in front are read alike. */
  lemma {:induction false} TagsAlike(a: seq<Byte>, b: seq<Byte>, at: Located, ip: nat)
    requires |a| == |b| && at.offset <= |a| && SkipTags(a, at).offset <= ip <= |a|
    requires forall i: nat :: i < ip ==> a[i] == b[i]
    ensures SkipTags(b, at) == SkipTags(a, at)
    decreases |a| - at.offset
  {
    if IsTag(at.ether) && |a| >= at.offset + 4 {
      var next := Located(at.offset + 4, Be16(a, at.offset + 2));
      assert SkipTags(a, at) == SkipTags(a, next);
      assert at.offset + 4 <= SkipTags(a, next).offset;
      TagsAlike(a, b, next, ip);
    }
  }

  lemma Ipv4AtAlike(raw: seq<Byte>, other: seq<Byte>, ip: nat)
    requires Ipv4At(raw) == Some(ip) && SameButEcn(raw, other, ip)
    ensures Ipv4At(other) == Some(ip)
  {
    TagsAlike(raw, other, Located(14, Be16(raw, 12)), ip);
  }

  /** The repaired header verifies. */
  lemma MarkedHeaderVerifies(raw: seq<Byte>, ip: nat, ihl: nat)
    requires 20 <= ihl && ip + ihl <= |raw|
    ensures Verifies(Marked(raw, ip, ihl)[ip..ip + ihl])
  {
    var blank := With16(raw[ip + 1 := raw[ip + 1] / 4 * 4 + 3], ip + 10, 0);
    var h := blank[ip..ip + ihl];
    assert Be16(h, 10) == 0;
    FilledInVerifies(h, 10, Checksum(h));
    assert Marked(raw, ip, ihl)[ip..ip + ihl] == With16(h, 10, Checksum(h));
  }

  /** Blanking removes exactly what marking may change. */
  lemma BlankedAlike(a: seq<Byte>, b: seq<Byte>, ip: nat)
    requires SameButEcn(a, b, ip) && a[ip + 1] / 4 == b[ip + 1] / 4
    ensures Blanked(a, ip) == Blanked(b, ip)
  {
    assert |Blanked(a, ip)| == |Blanked(b, ip)|;
    forall i: nat | i < |a|
      ensures Blanked(a, ip)[i] == Blanked(b, ip)[i]
    {
    }
  }

  /** Nothing past the header, and no address, is touched. */
  lemma RestAlike(a: seq<Byte>, b: seq<Byte>, ip: nat, length: Half)
    requires SameButEcn(a, b, ip)
    ensures forall n: nat :: ip + 20 <= n <= |a| ==> a[n..] == b[n..]
    ensures Pseudo(a, ip, length) == Pseudo(b, ip, length)
    ensures a[ip + 12..ip + 16] == b[ip + 12..ip + 16] && a[ip + 16..ip + 20] == b[ip + 16..ip + 20]
  {
  }

  /**
   * For every frame the verifier accepts, whatever its ECN field: the rewrite
   * is accepted too, with ECN 3 and every other field as it was, and the bytes
   * held to be unchanged are identical.
   */
  lemma MarkedIsDecoded(raw: seq<Byte>)
    requires Decoded(raw).Some?
    ensures var ip := Ipv4At(raw).value;
            var ihl := HeaderLength(raw, ip);
            && 20 <= ihl && ip + ihl <= |raw|
            && Decoded(Marked(raw, ip, ihl)) == Some(Decoded(raw).value.(ecn := 3))
  {
    var ip := Ipv4At(raw).value;
    var ihl := HeaderLength(raw, ip);
    var m := Marked(raw, ip, ihl);
    MarkingIsLocal(raw, ip, ihl);
    Ipv4AtAlike(raw, m, ip);
    MarkedHeaderVerifies(raw, ip, ihl);
    BlankedAlike(raw, m, ip);
    FieldsAlike(raw, m, ip);
  }

  /** Decoding depends on the changed bytes only through the ECN field and the header's checksum. */
  lemma FieldsAlike(raw: seq<Byte>, m: seq<Byte>, ip: nat)
    requires SameButEcn(raw, m, ip) && Ipv4Ok(raw, ip) && UdpOk(raw, ip)
    requires Verifies(m[ip..ip + HeaderLength(raw, ip)])
    requires raw[ip + 1] / 4 == m[ip + 1] / 4 && Blanked(raw, ip) == Blanked(m, ip)
    ensures DecodeAt(m, ip) == Some(DecodeAt(raw, ip).value.(ecn := m[ip + 1] % 4))
  {
    hide Verifies, Blanked, Pseudo, Ipv4Ok, UdpOk;
    HeadersAlike(raw, m, ip);
    DatagramsAlike(raw, m, ip);
    RestAlike(raw, m, ip, 0);
  }

  lemma HeadersAlike(raw: seq<Byte>, m: seq<Byte>, ip: nat)
    requires SameButEcn(raw, m, ip) && Ipv4Ok(raw, ip)
    requires Verifies(m[ip..ip + HeaderLength(raw, ip)])
    ensures HeaderLength(m, ip) == HeaderLength(raw, ip) && Ipv4Ok(m, ip)
    ensures 20 <= HeaderLength(raw, ip) && ip + HeaderLength(raw, ip) + 24 <= |raw|
  {
    hide Verifies;
  }

  lemma DatagramsAlike(raw: seq<Byte>, m: seq<Byte>, ip: nat)
    requires SameButEcn(raw, m, ip) && Ipv4Ok(raw, ip) && UdpOk(raw, ip) && Ipv4Ok(m, ip)
    requires HeaderLength(m, ip) == HeaderLength(raw, ip)
    ensures UdpOk(m, ip)
  {
    hide Verifies, Pseudo;
    var udp, length := ip + HeaderLength(raw, ip), Be16(raw, ip + HeaderLength(raw, ip) + 4);
    RestAlike(raw, m, ip, length);
    assert m[udp..udp + length] == raw[udp..udp + length];
  }
}
