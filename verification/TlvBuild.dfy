/**
 * Building a message in place: each item is written where the message ends,
 * and the length in the message's own header grows by what was written.
 */
module TlvBuild {
  import opened Common
  import opened Tlv

  /** A message, or an open nest, at position m of the buffer. */
  ghost predicate Open(buf: array<Word>, m: nat)
    reads buf
  {
    m < buf.Length && LenOf(buf[m]) % 4 == 0 && m + 1 + LenOf(buf[m]) / 4 <= buf.Length
  }

  ghost function Body(buf: array<Word>, m: nat): seq<Word>
    requires Open(buf, m)
    reads buf
  {
    buf[m + 1..m + 1 + LenOf(buf[m]) / 4]
  }

  /** The words an item may touch: a nest writes its header before it knows whether it stays. */
  function Room(a: Attr): nat
    requires Sensible(a)
    decreases a
  {
    if a.Nest? then 1 + RoomAll(a.attrs) else |Encode(a)|
  }

  function RoomAll(attrs: seq<Attr>): nat
    requires AllSensible(attrs)
    decreases attrs
  {
    if attrs == [] then 0 else Room(attrs[0]) + RoomAll(attrs[1..])
  }

  lemma {:induction false} RoomCovers(a: Attr)
    requires Sensible(a)
    ensures |Encode(a)| <= Room(a)
    decreases a
  {
    if a.Nest? {
      RoomCoversAll(a.attrs);
    }
  }

  lemma {:induction false} RoomCoversAll(attrs: seq<Attr>)
    requires AllSensible(attrs)
    ensures |EncodeAll(attrs)| <= RoomAll(attrs)
    decreases attrs
  {
    if attrs != [] {
      RoomCovers(attrs[0]);
      RoomCoversAll(attrs[1..]);
    }
  }

  lemma HeaderGrows(h: Word, words: nat)
    requires LenOf(h) + 4 * words < 4096
    ensures h + 4 * words * LEN_UNIT < 0x1_0000_0000
    ensures LenOf(h + 4 * words * LEN_UNIT) == LenOf(h) + 4 * words
    ensures (h + 4 * words * LEN_UNIT) % LEN_UNIT == h % LEN_UNIT
  {
    assert h == LenOf(h) * LEN_UNIT + h % LEN_UNIT;
    assert h + 4 * words * LEN_UNIT == (LenOf(h) + 4 * words) * LEN_UNIT + h % LEN_UNIT;
  }

  /** There is room in the buffer and in the 12-bit length. */
  ghost predicate HasRoom(buf: array<Word>, m: nat, words: nat, room: nat)
    requires Open(buf, m)
    reads buf
  {
    LenOf(buf[m]) + 4 * words < 4096 && words <= room && m + 1 + LenOf(buf[m]) / 4 + room <= buf.Length
  }

  /** Where the next item goes. */
  function Next(buf: array<Word>, m: nat): nat
    requires m < buf.Length
    reads buf
  {
    m + DwordLen(buf[m])
  }

  lemma NextIsEnd(buf: array<Word>, m: nat)
    requires Open(buf, m)
    ensures Next(buf, m) == m + 1 + LenOf(buf[m]) / 4
  {
    DwordLenCountsWords(buf[m]);
  }

  /** The message now reaches over the words that were written behind it. */
  method Grow(buf: array<Word>, m: nat, ghost e: seq<Word>, words: nat)
    requires Open(buf, m) && words == |e| && HasRoom(buf, m, words, words)
    requires Next(buf, m) + words <= buf.Length
    requires buf[Next(buf, m)..Next(buf, m) + words] == e
    modifies buf
    ensures Open(buf, m) && Body(buf, m) == old(Body(buf, m)) + e
    ensures buf[m] % LEN_UNIT == old(buf[m]) % LEN_UNIT && LenOf(buf[m]) == old(LenOf(buf[m])) + 4 * words
    ensures buf[..m] == old(buf[..m]) && buf[m + 1..] == old(buf[m + 1..])
  {
    NextIsEnd(buf, m);
    HeaderGrows(buf[m], words);
    ghost var p := Next(buf, m);
    buf[m] := buf[m] + 4 * words * LEN_UNIT;
    assert buf[m + 1..p + words] == buf[m + 1..p] + buf[p..p + words];
  }

  /** fm10k_tlv_msg_init. */
  method Init(buf: array<Word>, m: nat, id: Id)
    requires m < buf.Length
    modifies buf
    ensures Open(buf, m) && Body(buf, m) == []
    ensures IsMessage(buf[m]) && IdOf(buf[m]) == id && LenOf(buf[m]) == 0
    ensures buf[..m] == old(buf[..m])
  {
    buf[m] := 0x1_0000 + id;
  }

  /** What every put promises. */
  twostate predicate Appended(buf: array<Word>, m: nat, e: seq<Word>)
    requires old(Open(buf, m))
    reads buf
  {
    && Open(buf, m) && Body(buf, m) == old(Body(buf, m)) + e
    && buf[m] % LEN_UNIT == old(buf[m]) % LEN_UNIT && LenOf(buf[m]) == old(LenOf(buf[m])) + 4 * |e|
    && buf[..m] == old(buf[..m])
  }

  /** The item's header, once its data are in place; then the message grows over both. */
  method Seal(buf: array<Word>, m: nat, p: nat, id: Id, len: nat, ghost data: seq<Word>)
    requires Open(buf, m) && p == Next(buf, m) && len < 4096 && |data| == Align(len) / 4
    requires HasRoom(buf, m, |data| + 1, |data| + 1) && p + 1 + |data| <= buf.Length
    requires buf[p + 1..p + 1 + |data|] == data
    modifies buf
    ensures Appended(buf, m, [Header(len, id)] + data)
  {
    hide DwordLen, LenOf, Header;
    NextIsEnd(buf, m);
    buf[p] := Header(len, id);
    assert buf[p..p + 1 + |data|] == [Header(len, id)] + data;
    Grow(buf, m, [Header(len, id)] + data, Align(len) / 4 + 1);
  }

  /** put_bool. */
  method PutFlag(buf: array<Word>, m: nat, id: Id)
    requires Open(buf, m) && HasRoom(buf, m, 1, 1)
    modifies buf
    ensures Appended(buf, m, Encode(Flag(id)))
  {
    NextIsEnd(buf, m);
    Seal(buf, m, Next(buf, m), id, 0, []);
    assert [Header(0, id)] + [] == [Header(0, id)];
  }

  /** put_value: refused for lengths other than 1, 2, 4 and 8; higher bytes are cut off. */
  method PutValue(buf: array<Word>, m: nat, id: Id, value: nat, len: nat) returns (ok: bool)
    requires Open(buf, m) && value < Two(8)
    requires len in {1, 2, 4, 8} ==> (var words := if len == 8 then 3 else 2; HasRoom(buf, m, words, words))
    modifies buf
    ensures ok <==> len in {1, 2, 4, 8}
    ensures ok ==> Appended(buf, m, Encode(Value(id, len, value % Two(len))))
    ensures !ok ==> buf[..] == old(buf[..])
  {
    if len != 1 && len != 2 && len != 4 && len != 8 {
      return false;
    }
    NextIsEnd(buf, m);
    var p := Next(buf, m);
    LayValue(buf, p, value, len);
    assert buf[m] == buf[..p + 1][m] && buf[..m] == buf[..p + 1][..m];
    assert Body(buf, m) == buf[..p + 1][m + 1..p] == old(Body(buf, m));
    Seal(buf, m, p, id, len, ValueWords(len, value % Two(len)));
    ok := true;
  }

  method LayValue(buf: array<Word>, p: nat, value: nat, len: nat)
    requires len in {1, 2, 4, 8} && value < Two(8)
    requires p + (if len == 8 then 2 else 1) < buf.Length
    modifies buf
    ensures buf[..p + 1] == old(buf[..p + 1])
    ensures var data := ValueWords(len, value % Two(len)); buf[p + 1..p + 1 + |data|] == data
  {
    if len < 4 {
      buf[p + 1] := value % Two(len);
    } else {
      buf[p + 1] := value % 0x1_0000_0000;
      if len > 4 {
        buf[p + 2] := value / 0x1_0000_0000;
      }
    }
  }

  /** put_mac_vlan: the VLAN rides in the padding of the last word. */
  method PutMacVlan(buf: array<Word>, m: nat, id: Id, mac: seq<Byte>, vlan: Id)
    requires Open(buf, m) && HasRoom(buf, m, 3, 3) && |mac| == 6
    modifies buf
    ensures Appended(buf, m, Encode(MacVlan(id, mac, vlan)))
  {
    NextIsEnd(buf, m);
    var p := Next(buf, m);
    buf[p + 1] := Word4(mac[0], mac[1], mac[2], mac[3]);
    buf[p + 2] := Word4(mac[4], mac[5], 0, 0);
    buf[p + 2] := buf[p + 2] + 0x1_0000 * (vlan as int);
    assert Body(buf, m) == old(Body(buf, m)) && buf[..m] == old(buf[..m]);
    ghost var e := Encode(MacVlan(id, mac, vlan));
    assert buf[p + 1..p + 3] == e[1..];
    Seal(buf, m, p, id, 6, e[1..]);
    assert [Header(6, id)] + e[1..] == e;
  }

  method Lay(buf: array<Word>, p: nat, words: seq<Word>)
    requires p + |words| <= buf.Length
    modifies buf
    ensures buf[..p] == old(buf[..p]) && buf[p..p + |words|] == words
  {
    for i := 0 to |words|
      invariant buf[..p] == old(buf[..p]) && buf[p..p + i] == words[..i]
    {
      buf[p + i] := words[i];
      assert buf[p..p + i + 1] == buf[p..p + i] + [words[i]];
    }
  }

  /** put_le_struct: refused unless it is a non-empty number of whole words. */
  method PutStruct(buf: array<Word>, m: nat, id: Id, words: seq<Word>, len: nat) returns (ok: bool)
    requires Open(buf, m) && len / 4 == |words|
    requires len > 0 && len % 4 == 0 ==> HasRoom(buf, m, |words| + 1, |words| + 1)
    modifies buf
    ensures ok <==> len > 0 && len % 4 == 0
    ensures ok ==> |words| < 1024 && Appended(buf, m, Encode(Struct(id, words)))
    ensures !ok ==> buf[..] == old(buf[..])
  {
    if len == 0 || len % 4 != 0 {
      return false;
    }
    NextIsEnd(buf, m);
    var p := Next(buf, m);
    Lay(buf, p + 1, words);
    assert buf[m] == buf[..p + 1][m] && buf[..m] == buf[..p + 1][..m];
    assert Body(buf, m) == buf[..p + 1][m + 1..p] == old(Body(buf, m));
    Seal(buf, m, p, id, len, words);
    ok := true;
  }

  /** The character's contribution to the word being filled. */
  function CharIn(c: Byte, n: nat): Word {
    if n % 4 == 0 then c
    else if n % 4 == 1 then 0x100 * (c as int)
    else if n % 4 == 2 then 0x1_0000 * (c as int)
    else 0x100_0000 * (c as int)
  }

  /** The word being filled after n characters. */
  function Filling(s: seq<Byte>, n: nat): Word
    requires n <= |s|
  {
    if n == 0 then 0 else Lane(s[..n], (n - 1) / 4)
  }

  lemma FillingStarts(s: seq<Byte>)
    ensures Filling(s, 0) == 0
  {
  }

  lemma NextFilling(s: seq<Byte>, n: nat)
    requires n < |s|
    ensures Filling(s, n + 1) == (if n % 4 == 0 then 0 else Filling(s, n)) + CharIn(s[n], n)
  {
    assert n == 4 * (n / 4) + n % 4;
    if n % 4 != 0 {
      assert (n - 1) / 4 == n / 4;
    }
  }

  /** A word is done after four characters, or at the end. */
  lemma FillingDone(s: seq<Byte>, n: nat)
    requires 0 < n <= |s| && (n % 4 == 0 || n == |s|)
    ensures Filling(s, n) == Lane(s, (n - 1) / 4)
  {
    assert n - 1 == 4 * ((n - 1) / 4) + (n - 1) % 4;
  }

  /** The data words of a string, each written when the next one begins, the last at the end. */
  method LayText(buf: array<Word>, p: nat, chars: seq<Byte>) returns (len: nat)
    requires forall c <- chars :: c != 0
    requires p + (|chars| + 4) / 4 < buf.Length
    modifies buf
    ensures len == |chars| + 1 && buf[..p + 1] == old(buf[..p + 1])
    ensures buf[p + 1..p + 1 + |Pack(chars + [0])|] == Pack(chars + [0])
  {
    hide Lane, Filling, CharIn;
    ghost var s := chars + [0];
    var data: Word, c: Byte := 0, 1;
    len := 0;
    FillingStarts(s);
    while c != 0
      invariant len <= |s| && (c == 0 <==> len == |s|)
      invariant buf[..p + 1] == old(buf[..p + 1])
      invariant len > 0 ==> forall k: nat :: k < (len - 1) / 4 ==> buf[p + 1 + k] == Lane(s, k)
      invariant data == Filling(s, len)
      decreases |s| - len
    {
      if len != 0 && len % 4 == 0 {
        FillingDone(s, len);
        assert (len - 1) / 4 + 1 == len / 4;
        buf[p + len / 4] := data;
        data := 0;
        assert buf[p + 1 + (len - 1) / 4] == Lane(s, (len - 1) / 4);
      }
      c := if len < |chars| then chars[len] else 0;
      assert len < |chars| ==> c in chars;
      NextFilling(s, len);
      data := data + CharIn(c, len);
      len := len + 1;
    }
    FillingDone(s, len);
    buf[p + (len + 3) / 4] := data;
  }

  /** put_null_string. */
  method PutText(buf: array<Word>, m: nat, id: Id, chars: seq<Byte>)
    requires Sensible(Text(id, chars))
    requires Open(buf, m) && HasRoom(buf, m, (|chars| + 4) / 4 + 1, (|chars| + 4) / 4 + 1)
    modifies buf
    ensures Appended(buf, m, Encode(Text(id, chars)))
  {
    hide Lane;
    NextIsEnd(buf, m);
    var p := Next(buf, m);
    var len := LayText(buf, p, chars);
    assert buf[m] == buf[..p + 1][m] && buf[..m] == buf[..p + 1][..m];
    assert Body(buf, m) == buf[..p + 1][m + 1..p] == old(Body(buf, m));
    Seal(buf, m, p, id, len, Pack(chars + [0]));
  }

  // ----- any item --------------------------------------------------------

  /** How many words each kind takes. */
  lemma ItemWords(a: Attr)
    requires Sensible(a)
    ensures !a.Nest? ==> Room(a) == |Encode(a)|
    ensures match a
            case Text(_, chars) => |Encode(a)| == (|chars| + 4) / 4 + 1
            case MacVlan(_, _, _) => |Encode(a)| == 3
            case Flag(_) => |Encode(a)| == 1
            case Value(_, len, raw) =>
              |Encode(a)| == (if len == 8 then 3 else 2) && raw % Two(len) == raw && raw < Two(8)
            case Struct(_, words) => |Encode(a)| == |words| + 1
            case Nest(_, attrs) => Room(a) == 1 + RoomAll(attrs)
  {
  }

  /** The put for each kind; a nest is opened, filled and closed. */
  method Put(buf: array<Word>, m: nat, a: Attr)
    requires Sensible(a) && Fits(a) && Open(buf, m)
    requires HasRoom(buf, m, |Encode(a)|, Room(a))
    modifies buf
    ensures Appended(buf, m, Encode(a))
    decreases a, 0
  {
    ItemWords(a);
    hide Encode, Room, LenOf, Two;
    match a
    case Text(id, chars) => PutText(buf, m, id, chars);
    case MacVlan(id, mac, vlan) => PutMacVlan(buf, m, id, mac, vlan);
    case Flag(id) => PutFlag(buf, m, id);
    case Value(id, len, raw) => var ok := PutValue(buf, m, id, raw, len);
    case Struct(id, words) => var ok := PutStruct(buf, m, id, words, 4 * |words|);
    case Nest(id, attrs) => PutNest(buf, m, id, attrs);
  }

  method PutNest(buf: array<Word>, m: nat, id: Id, attrs: seq<Attr>)
    requires AllSensible(attrs) && AllFit(attrs) && Open(buf, m) && |EncodeAll(attrs)| < 1024
    requires HasRoom(buf, m, |Encode(Nest(id, attrs))|, 1 + RoomAll(attrs))
    modifies buf
    ensures Appended(buf, m, Encode(Nest(id, attrs)))
    decreases attrs, 1
  {
    NextIsEnd(buf, m);
    var p := Next(buf, m);
    buf[p] := id;  // nest_start
    assert LenOf(buf[p]) == 0 && Body(buf, p) == [];
    RoomCoversAll(attrs);
    PutAll(buf, p, attrs);
    assert buf[m] == buf[..p][m] && buf[..m] == buf[..p][..m];
    assert Body(buf, m) == buf[..p][m + 1..p] == old(Body(buf, m));
    CloseNest(buf, m, id, EncodeAll(attrs));
  }

  /** nest_stop: only a nest that holds something joins its parent. */
  method CloseNest(buf: array<Word>, m: nat, id: Id, ghost body: seq<Word>)
    requires Open(buf, m) && Next(buf, m) < buf.Length && Open(buf, Next(buf, m))
    requires Body(buf, Next(buf, m)) == body && buf[Next(buf, m)] % LEN_UNIT == id
    requires |body| < 1024 && HasRoom(buf, m, if body == [] then 0 else |body| + 1, |body| + 1)
    modifies buf
    ensures Appended(buf, m, if body == [] then [] else [Header(4 * |body|, id)] + body)
  {
    NextIsEnd(buf, m);
    var p := Next(buf, m);
    var len := LenOf(buf[p]);
    assert len == 4 * |body|;
    if len != 0 {
      assert buf[p] == Header(len, id);
      assert buf[p..p + 1 + |body|] == [Header(len, id)] + body;
      Grow(buf, m, [Header(len, id)] + body, len / 4 + 1);
    }
  }

  method PutAll(buf: array<Word>, m: nat, attrs: seq<Attr>)
    requires AllSensible(attrs) && AllFit(attrs) && Open(buf, m)
    requires HasRoom(buf, m, |EncodeAll(attrs)|, RoomAll(attrs))
    modifies buf
    ensures Appended(buf, m, EncodeAll(attrs))
    decreases attrs, 0
  {
    if attrs != [] {
      RoomCovers(attrs[0]);
      RoomCoversAll(attrs[1..]);
      Put(buf, m, attrs[0]);
      PutAll(buf, m, attrs[1..]);
      Concatenated(old(Body(buf, m)), Encode(attrs[0]), EncodeAll(attrs[1..]));
    }
  }

  lemma Concatenated(a: seq<Word>, b: seq<Word>, c: seq<Word>)
    ensures (a + b) + c == a + (b + c)
  {
  }

  /** A whole message: its length is always whole words, and it holds exactly its items. */
  method Build(buf: array<Word>, id: Id, attrs: seq<Attr>)
    requires AllSensible(attrs) && AllFit(attrs)
    requires |EncodeAll(attrs)| < 1024 && 1 + RoomAll(attrs) <= buf.Length
    modifies buf
    ensures IsMessage(buf[0]) && IdOf(buf[0]) == id
    ensures LenOf(buf[0]) == 4 * |EncodeAll(attrs)| && StandsAt(buf[..], 1, EncodeAll(attrs))
  {
    RoomCoversAll(attrs);
    Init(buf, 0, id);
    HeaderKeepsFlags(buf[0], |EncodeAll(attrs)|);
    PutAll(buf, 0, attrs);
  }

  lemma HeaderKeepsFlags(h: Word, words: nat)
    ensures forall g: Word :: g % LEN_UNIT == h % LEN_UNIT ==> IsMessage(g) == IsMessage(h) && IdOf(g) == IdOf(h)
  {
    forall g: Word | g % LEN_UNIT == h % LEN_UNIT
      ensures IsMessage(g) == IsMessage(h) && IdOf(g) == IdOf(h)
    {
      LowFields(g);
      LowFields(h);
    }
  }

  lemma LowFields(h: Word)
    ensures IdOf(h) == h % LEN_UNIT % 0x1_0000
    ensures IsMessage(h) == (h % LEN_UNIT / 0x1_0000 % 2 == 1)
  {
    var a, b := h / 0x1_0000, h % 0x1_0000;
    assert h == a * 0x1_0000 + b;
    var q, r := a / 16, a % 16;
    assert h == q * LEN_UNIT + (r * 0x1_0000 + b);
    assert h % LEN_UNIT == r * 0x1_0000 + b;
    assert a % 2 == r % 2;
  }
}
