/**
 * Type-length-value messages between the switch's functions: 32-bit words, a
 * header word of 12-bit length, 4-bit flags and 16-bit id before each item.
 */
module Tlv {
  import opened Common

  type Id = i: int | 0 <= i < 0x1_0000

  const LEN_UNIT := 0x10_0000  // one byte of length, in a header

  // ----- headers ---------------------------------------------------------

  function IdOf(h: Word): Id { h % 0x1_0000 }

  predicate IsMessage(h: Word) { h / 0x1_0000 % 2 == 1 }

  function LenOf(h: Word): (len: nat)
    ensures len < 4096
  {
    h / LEN_UNIT
  }

  function Header(len: nat, id: Id): Word
    requires len < 4096
  {
    len * LEN_UNIT + id
  }

  /** Length rounded up to whole words. */
  function Align(len: nat): nat {
    (len + 3) / 4 * 4
  }

  /** FM10K_TLV_DWORD_LEN, header included: add three units of length, keep what is above four. */
  function DwordLen(h: Word): nat {
    (h + 3 * LEN_UNIT) / (4 * LEN_UNIT) + 1
  }

  /** The id and flags below the length never carry into it. */
  lemma DwordLenCountsWords(h: Word)
    ensures DwordLen(h) == Align(LenOf(h)) / 4 + 1
  {
    var low := h % LEN_UNIT;
    assert h + 3 * LEN_UNIT == (LenOf(h) + 3) * LEN_UNIT + low;
    assert (LenOf(h) + 3) == (LenOf(h) + 3) / 4 * 4 + (LenOf(h) + 3) % 4;
  }

  lemma HeaderFields(len: nat, id: Id)
    requires len < 4096
    ensures LenOf(Header(len, id)) == len && IdOf(Header(len, id)) == id && !IsMessage(Header(len, id))
  {
    var h, q := Header(len, id), 16 * len;
    assert h == q * 0x1_0000 + id;
    assert h / 0x1_0000 == q && h % 0x1_0000 == id;
    assert h / LEN_UNIT == len && q % 2 == 0;
  }

  // ----- bytes in words --------------------------------------------------

  /** Byte i of a string, zero past its end. */
  function ByteAt(s: seq<Byte>, i: nat): Byte {
    if i < |s| then s[i] else 0
  }

  /** Four bytes, lowest first. */
  function Word4(a: Byte, b: Byte, c: Byte, d: Byte): Word {
    a + 0x100 * b + 0x1_0000 * c + 0x100_0000 * d
  }

  function Lane(s: seq<Byte>, k: nat): Word {
    Word4(ByteAt(s, 4 * k), ByteAt(s, 4 * k + 1), ByteAt(s, 4 * k + 2), ByteAt(s, 4 * k + 3))
  }

  function Pack(s: seq<Byte>): seq<Word> {
    seq((|s| + 3) / 4, k requires 0 <= k => Lane(s, k))
  }

  /** Byte j of a word. */
  function ByteOf(w: Word, j: nat): Byte
    requires j < 4
  {
    if j == 0 then w % 0x100
    else if j == 1 then w / 0x100 % 0x100
    else if j == 2 then w / 0x1_0000 % 0x100
    else w / 0x100_0000
  }

  lemma UnpackWord(a: Byte, b: Byte, c: Byte, d: Byte)
    ensures ByteOf(Word4(a, b, c, d), 0) == a && ByteOf(Word4(a, b, c, d), 1) == b
    ensures ByteOf(Word4(a, b, c, d), 2) == c && ByteOf(Word4(a, b, c, d), 3) == d
  {
    var w := Word4(a, b, c, d);
    assert w / 0x100 == b + 0x100 * c + 0x1_0000 * d;
    assert w / 0x1_0000 == c + 0x100 * d;
  }

  lemma Unpack(s: seq<Byte>, i: nat)
    requires i < |s|
    ensures i / 4 < |Pack(s)| && ByteOf(Pack(s)[i / 4], i % 4) == s[i]
  {
    var k := i / 4;
    UnpackWord(ByteAt(s, 4 * k), ByteAt(s, 4 * k + 1), ByteAt(s, 4 * k + 2), ByteAt(s, 4 * k + 3));
    assert i == 4 * k + i % 4;
  }

  // ----- attributes ------------------------------------------------------

  /** `raw` is the two's complement of a value in `len` bytes. */
  datatype Attr =
    | Text(id: Id, chars: seq<Byte>)
    | MacVlan(id: Id, mac: seq<Byte>, vlan: Id)
    | Flag(id: Id)
    | Value(id: Id, len: nat, raw: nat)
    | Struct(id: Id, words: seq<Word>)
    | Nest(id: Id, attrs: seq<Attr>)

  function Two(bytes: nat): nat {
    if bytes == 1 then 0x100
    else if bytes == 2 then 0x1_0000
    else if bytes == 4 then 0x1_0000_0000
    else 0x1_0000_0000_0000_0000
  }

  function ValueWords(len: nat, raw: nat): seq<Word>
    requires len in {1, 2, 4, 8} && raw < Two(len)
  {
    if len == 8 then [raw % 0x1_0000_0000, raw / 0x1_0000_0000] else [raw]
  }

  /** What each item may hold. */
  predicate Sensible(a: Attr)
    decreases a
  {
    match a
    case Text(_, chars) => |chars| < 4095 && forall c <- chars :: c != 0
    case MacVlan(_, mac, _) => |mac| == 6
    case Flag(_) => true
    case Value(_, len, raw) => len in {1, 2, 4, 8} && raw < Two(len)
    case Struct(_, words) => 0 < |words| < 1024
    case Nest(_, attrs) => AllSensible(attrs)
  }

  predicate AllSensible(attrs: seq<Attr>)
    decreases attrs
  {
    attrs == [] || (Sensible(attrs[0]) && AllSensible(attrs[1..]))
  }

  /** The words of an item; a nest nothing was put into leaves none. */
  function Encode(a: Attr): (e: seq<Word>)
    requires Sensible(a)
    decreases a
  {
    match a
    case Text(id, chars) => [Header(|chars| + 1, id)] + Pack(chars + [0])
    case MacVlan(id, mac, vlan) =>
      [Header(6, id), Word4(mac[0], mac[1], mac[2], mac[3]), mac[4] + 0x100 * mac[5] + 0x1_0000 * vlan]
    case Flag(id) => [Header(0, id)]
    case Value(id, len, raw) => [Header(len, id)] + ValueWords(len, raw)
    case Struct(id, words) => [Header(4 * |words|, id)] + words
    case Nest(id, attrs) =>
      var body := EncodeAll(attrs);
      if body == [] || |body| >= 1024 then [] else [Header(4 * |body|, id)] + body
  }

  function EncodeAll(attrs: seq<Attr>): seq<Word>
    requires AllSensible(attrs)
    decreases attrs
  {
    if attrs == [] then [] else Encode(attrs[0]) + EncodeAll(attrs[1..])
  }

  /** Nests, too, must fit their 12-bit length. */
  predicate Fits(a: Attr)
    requires Sensible(a)
    decreases a
  {
    a.Nest? ==> AllFit(a.attrs) && |EncodeAll(a.attrs)| < 1024
  }

  predicate AllFit(attrs: seq<Attr>)
    requires AllSensible(attrs)
    decreases attrs
  {
    attrs == [] || (Fits(attrs[0]) && AllFit(attrs[1..]))
  }

  lemma {:induction false} EncodeAppends(attrs: seq<Attr>, a: Attr)
    requires AllSensible(attrs) && Sensible(a)
    ensures AllSensible(attrs + [a])
    ensures EncodeAll(attrs + [a]) == EncodeAll(attrs) + Encode(a)
  {
    if attrs == [] {
      assert attrs + [a] == [a] && [a][1..] == [];
    } else {
      assert (attrs + [a])[1..] == attrs[1..] + [a];
      EncodeAppends(attrs[1..], a);
    }
  }

  /** Every item that leaves anything occupies exactly the words its own header claims. */
  lemma HeaderSpans(a: Attr)
    requires Sensible(a) && Fits(a) && Encode(a) != []
    ensures IdOf(Encode(a)[0]) == a.id && !IsMessage(Encode(a)[0])
    ensures DwordLen(Encode(a)[0]) == |Encode(a)|
  {
    var h := Encode(a)[0];
    DwordLenCountsWords(h);
    match a
    case Text(id, chars) => HeaderFields(|chars| + 1, id);
    case MacVlan(id, _, _) => HeaderFields(6, id);
    case Flag(id) => HeaderFields(0, id);
    case Value(id, len, _) => HeaderFields(len, id);
    case Struct(id, words) => HeaderFields(4 * |words|, id);
    case Nest(id, attrs) => HeaderFields(4 * |EncodeAll(attrs)|, id);
  }

  // ----- reading one item back -------------------------------------------

  /** The item stands at position p. */
  predicate StandsAt(w: seq<Word>, p: nat, e: seq<Word>) {
    p + |e| <= |w| && w[p..p + |e|] == e
  }

  lemma WordsOf(w: seq<Word>, p: nat, e: seq<Word>, k: nat)
    requires StandsAt(w, p, e) && k < |e|
    ensures w[p + k] == e[k]
  {
    assert w[p..p + |e|][k] == e[k];
  }

  /** What get_null_string reads: as many bytes as the header says, the terminator among them. */
  function TextAt(w: seq<Word>, p: nat): seq<Byte>
    requires p < |w| && p + 1 + (LenOf(w[p]) + 3) / 4 <= |w|
  {
    seq(LenOf(w[p]), i requires 0 <= i < LenOf(w[p]) => ByteOf(w[p + 1 + i / 4], i % 4))
  }

  lemma TextReadsBack(w: seq<Word>, p: nat, id: Id, chars: seq<Byte>)
    requires Sensible(Text(id, chars)) && StandsAt(w, p, Encode(Text(id, chars)))
    ensures p < |w| && p + 1 + (LenOf(w[p]) + 3) / 4 <= |w|
    ensures TextAt(w, p) == chars + [0]
  {
    hide ByteOf, Lane, LenOf;
    var e, s := Encode(Text(id, chars)), chars + [0];
    WordsOf(w, p, e, 0);
    HeaderFields(|s|, id);
    forall i: nat | i < |s|
      ensures ByteOf(w[p + 1 + i / 4], i % 4) == s[i]
    {
      Unpack(s, i);
      WordsOf(w, p, e, 1 + i / 4);
    }
  }

  datatype MacResult = MacResult(mac: seq<Byte>, vlan: Id)

  function MacAt(w: seq<Word>, p: nat): MacResult
    requires p + 2 < |w|
  {
    MacResult([ByteOf(w[p + 1], 0), ByteOf(w[p + 1], 1), ByteOf(w[p + 1], 2), ByteOf(w[p + 1], 3),
               ByteOf(w[p + 2], 0), ByteOf(w[p + 2], 1)], w[p + 2] / 0x1_0000)
  }

  lemma MacReadsBack(w: seq<Word>, p: nat, id: Id, mac: seq<Byte>, vlan: Id)
    requires |mac| == 6 && StandsAt(w, p, Encode(MacVlan(id, mac, vlan)))
    ensures MacAt(w, p) == MacResult(mac, vlan)
  {
    var e := Encode(MacVlan(id, mac, vlan));
    WordsOf(w, p, e, 1);
    WordsOf(w, p, e, 2);
    UnpackWord(mac[0], mac[1], mac[2], mac[3]);
    assert w[p + 2] == (mac[4] as int) + 0x100 * (mac[5] as int) + 0x1_0000 * (vlan as int);
    assert w[p + 2] / 0x1_0000 == vlan && w[p + 2] % 0x1_0000 == (mac[4] as int) + 0x100 * (mac[5] as int);
    assert w[p + 2] / 0x100 == (mac[5] as int) + 0x100 * (vlan as int);
  }

  /** get_value: refused unless the caller asks for the length on record. */
  function ValueAt(w: seq<Word>, p: nat, len: nat): Option<nat>
    requires len in {1, 2, 4, 8} && p < |w| && p + 1 + (LenOf(w[p]) + 3) / 4 <= |w|
  {
    if LenOf(w[p]) != len then None
    else if len == 8 then Some(0x1_0000_0000 * (w[p + 2] as int) + (w[p + 1] as int))
    else if len == 4 then Some(w[p + 1])
    else if len == 2 then Some(w[p + 1] % 0x1_0000)
    else Some(w[p + 1] % 0x100)
  }

  lemma ValueReadsBack(w: seq<Word>, p: nat, a: Attr)
    requires a.Value? && Sensible(a) && StandsAt(w, p, Encode(a))
    ensures p < |w| && p + 1 + (LenOf(w[p]) + 3) / 4 <= |w|
    ensures ValueAt(w, p, a.len) == Some(a.raw)
    ensures forall len: nat :: len in {1, 2, 4, 8} && len != a.len ==> ValueAt(w, p, len) == None
  {
    WordsOf(w, p, Encode(a), 0);
    WordsOf(w, p, Encode(a), 1);
    HeaderFields(a.len, a.id);
    if a.len == 8 {
      WordsOf(w, p, Encode(a), 2);
    }
  }

  /** get_le_struct. */
  function StructAt(w: seq<Word>, p: nat, len: nat): Option<seq<Word>>
    requires p < |w| && p + 1 + (LenOf(w[p]) + 3) / 4 <= |w|
  {
    if LenOf(w[p]) != len then None else Some(w[p + 1..p + 1 + len / 4])
  }

  lemma StructReadsBack(w: seq<Word>, p: nat, id: Id, words: seq<Word>)
    requires 0 < |words| < 1024 && StandsAt(w, p, Encode(Struct(id, words)))
    ensures p < |w| && p + 1 + (LenOf(w[p]) + 3) / 4 <= |w|
    ensures StructAt(w, p, 4 * |words|) == Some(words)
  {
    WordsOf(w, p, Encode(Struct(id, words)), 0);
    HeaderFields(4 * |words|, id);
    forall k: nat | k < |words|
      ensures w[p + 1 + k] == words[k]
    {
      WordsOf(w, p, Encode(Struct(id, words)), 1 + k);
    }
    assert w[p + 1..p + 1 + |words|] == words;
  }

  // ----- signed values ---------------------------------------------------

  /** A signed value as it is stored in `bytes` bytes, and as it is read. */
  function Store(v: int, bytes: nat): nat { v % Two(bytes) }

  function Load(raw: nat, bytes: nat): int {
    if raw < Two(bytes) / 2 then raw else raw - Two(bytes)
  }

  lemma SignedReadsBack(v: int, bytes: nat)
    requires bytes in {1, 2, 4, 8} && -(Two(bytes) / 2) <= v < Two(bytes) / 2
    ensures Store(v, bytes) < Two(bytes) && Load(Store(v, bytes), bytes) == v
  {
    if bytes == 1 {
      assert v % 0x100 == if v < 0 then v + 0x100 else v;
    } else if bytes == 2 {
      assert v % 0x1_0000 == if v < 0 then v + 0x1_0000 else v;
    } else if bytes == 4 {
      assert v % 0x1_0000_0000 == if v < 0 then v + 0x1_0000_0000 else v;
    } else {
      assert v % 0x1_0000_0000_0000_0000 == if v < 0 then v + 0x1_0000_0000_0000_0000 else v;
    }
  }
}
