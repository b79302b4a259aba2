/**
 * Parsing a message against a schema, and what it gives back of one that was
 * built: every item, the last of a kind winning, unknown kinds skipped.
 */
module TlvParse {
  import opened Common
  import opened Tlv

  const RESULTS_MAX := 32
  const LAST := 0xffff_ffff

  datatype Kind = TextKind | MacKind | FlagKind | NumberKind | StructKind | NestKind | BadKind

  /** `inner` is the schema a nest of this id is parsed with in its turn. */
  datatype Entry = Entry(id: nat, kind: Kind, len: nat, inner: seq<Entry>)

  /** A schema is closed by an entry beyond every id. */
  predicate Closed(schema: seq<Entry>) {
    schema != [] && schema[|schema| - 1].id == LAST
  }

  /** The first entry not below the id, if it is the id's. */
  function Lookup(schema: seq<Entry>, id: Id): (e: Option<Entry>)
    ensures e.Some? ==> exists k: nat :: k < |schema| && schema[k] == e.value
  {
    if schema == [] then None
    else if schema[0].id < id then Lookup(schema[1..], id)
    else if schema[0].id == id then Some(schema[0]) else None
  }

  datatype Verdict = Fine | NotImplemented | Malformed

  /** The item lies in the buffer, as far as its own header claims. */
  predicate Ample(w: seq<Word>, p: nat) {
    p < |w| && p + 1 + (LenOf(w[p]) + 3) / 4 <= |w|
  }

  /** The items from word q on to the end of the message lie in the buffer, even where they claim words beyond it. */
  predicate InBuffer(w: seq<Word>, b: nat, q: nat, len: nat)
    decreases len - 4 * q
  {
    4 * q < len ==> Ample(w, b + q) && InBuffer(w, b, q + DwordLen(w[b + q]), len)
  }

  lemma ItemsSpan(h: Word)
    ensures DwordLen(h) == (LenOf(h) + 3) / 4 + 1
  {
    DwordLenCountsWords(h);
  }

  predicate Accepts(w: seq<Word>, p: nat, e: Entry)
    requires Ample(w, p)
  {
    var len := LenOf(w[p]);
    match e.kind
    case TextKind => len != 0 && ByteOf(w[p + 1 + (len - 1) / 4], (len - 1) % 4) == 0 && len <= e.len
    case MacKind => len == 6
    case FlagKind => len == 0
    case NumberKind => len == e.len
    case StructKind => len % 4 == 0 && len == e.len
    case NestKind => len % 4 == 0
    case BadKind => false
  }

  /** An item is accepted exactly if the getter of its kind can take all of it:
      a string with its terminator inside the allowed size, a number or a
      structure at its declared length, a nest of whole words. */
  lemma AcceptsReadable(w: seq<Word>, p: nat, e: Entry)
    requires Ample(w, p)
    ensures e.kind == TextKind ==>
              var text := TextAt(w, p);
              Accepts(w, p, e) <==> text != [] && text[|text| - 1] == 0 && |text| <= e.len
    ensures e.kind == MacKind ==> (Accepts(w, p, e) <==> w[p] / 0x10_0000 == 6)
    ensures e.kind == FlagKind ==> (Accepts(w, p, e) <==> DwordLen(w[p]) == 1)
    ensures e.kind == NumberKind && e.len in {1, 2, 4, 8} ==> (Accepts(w, p, e) <==> ValueAt(w, p, e.len).Some?)
    ensures e.kind == StructKind ==>
              var words := StructAt(w, p, e.len);
              Accepts(w, p, e) <==> words.Some? && 4 * |words.value| == e.len
    ensures e.kind == NestKind ==> (Accepts(w, p, e) <==> 4 * (DwordLen(w[p]) - 1) == LenOf(w[p]))
    ensures e.kind == BadKind ==> !Accepts(w, p, e)
  {
    hide ByteOf;
    ItemsSpan(w[p]);
  }

  predicate Ascending(schema: seq<Entry>) {
    forall i, k :: 0 <= i < k < |schema| ==> schema[i].id < schema[k].id
  }

  /** In an ascending schema the search finds the entry of the id, if there is one. */
  lemma {:induction false} LookupFinds(schema: seq<Entry>, id: Id)
    requires Ascending(schema)
    ensures forall k :: 0 <= k < |schema| && schema[k].id == id ==> Lookup(schema, id) == Some(schema[k])
    ensures Lookup(schema, id).Some? ==> Lookup(schema, id).value.id == id
  {
    if schema != [] {
      LookupFinds(schema[1..], id);
    }
  }

  function Validate(w: seq<Word>, p: nat, schema: seq<Entry>): Verdict
    requires Ample(w, p)
  {
    if IsMessage(w[p]) then Malformed
    else
      match Lookup(schema, IdOf(w[p]))
      case None => NotImplemented
      case Some(e) => if Accepts(w, p, e) then Fine else Malformed
  }

  type Results = r: seq<Option<nat>> | |r| == RESULTS_MAX witness seq(RESULTS_MAX, i => None)

  /** Nothing found yet. */
  function Blank(): Results {
    seq(RESULTS_MAX, i => None)
  }

  datatype Parsed = Ok(results: Results) | Err(verdict: Verdict)

  /** From item to item, q words into the body. */
  function Walk(w: seq<Word>, b: nat, q: nat, len: nat, schema: seq<Entry>, r: Results): Parsed
    requires InBuffer(w, b, q, len)
    decreases len - 4 * q
  {
    if 4 * q >= len then if 4 * q == len then Ok(r) else Err(Malformed)
    else
      var h := w[b + q];
      if IdOf(h) >= RESULTS_MAX then Err(NotImplemented)
      else
        match Validate(w, b + q, schema)
        case Fine => Walk(w, b, q + DwordLen(h), len, schema, r[IdOf(h) := Some(b + q)])
        case NotImplemented => Walk(w, b, q + DwordLen(h), len, schema, r)
        case Malformed => Err(Malformed)
  }

  // ----- the parser ------------------------------------------------------

  /** The search for an id, up to the closing entry. */
  method Find(schema: seq<Entry>, id: Id) returns (e: Option<Entry>)
    requires Closed(schema)
    ensures e == Lookup(schema, id)
  {
    var i := 0;
    while schema[i].id < id
      invariant i < |schema|
      invariant Lookup(schema, id) == Lookup(schema[i..], id)
      decreases |schema| - i
    {
      assert schema[i..][1..] == schema[i + 1..];
      i := i + 1;
    }
    assert schema[i..][0] == schema[i];
    return if schema[i].id != id then None else Some(schema[i]);
  }

  method ValidateItem(buf: array<Word>, p: nat, schema: seq<Entry>) returns (v: Verdict)
    requires Closed(schema) && Ample(buf[..], p)
    ensures v == Validate(buf[..], p, schema)
  {
    if IsMessage(buf[p]) {
      return Malformed;
    }
    var e := Find(schema, IdOf(buf[p]));
    if e.None? {
      return NotImplemented;
    }
    var len := LenOf(buf[p]);
    var fits: bool;
    match e.value.kind {
      case TextKind =>
        fits := len != 0 && ByteOf(buf[p + 1 + (len - 1) / 4], (len - 1) % 4) == 0;
        if len > e.value.len { fits := false; }
      case MacKind => fits := len == 6;
      case FlagKind => fits := len == 0;
      case NumberKind => fits := len == e.value.len;
      case StructKind => fits := len % 4 == 0 && len == e.value.len;
      case NestKind => fits := len % 4 == 0;
      case BadKind => fits := false;
    }
    v := if fits then Fine else Malformed;
  }

  /** fm10k_tlv_attr_parse.  `results` is filled item by item; on success it is what the walk says. */
  method Parse(buf: array<Word>, m: nat, schema: Option<seq<Entry>>, results: array<Option<nat>>) returns (v: Verdict)
    requires m < buf.Length && InBuffer(buf[..], m + 1, 0, LenOf(buf[m]))
    requires results.Length == RESULTS_MAX && (schema.Some? ==> Closed(schema.value))
    modifies results
    ensures LenOf(buf[m]) == 0 ==> v == Fine && forall i :: 0 <= i < RESULTS_MAX ==> results[i] == None
    ensures LenOf(buf[m]) != 0 && schema.None? ==>
              v == Fine && forall i :: 0 <= i < RESULTS_MAX ==> results[i] == if i == 0 then Some(m) else None
    ensures LenOf(buf[m]) != 0 && schema.Some? ==>
              match Walk(buf[..], m + 1, 0, LenOf(buf[m]), schema.value, Blank())
              case Ok(r) => v == Fine && results[..] == r
              case Err(e) => v == e != Fine
  {
    for i := 0 to RESULTS_MAX
      invariant forall k :: 0 <= k < i ==> results[k] == None
    {
      results[i] := None;
    }
    var len := LenOf(buf[m]);
    if len == 0 {
      return Fine;
    }
    if schema.None? {
      results[0] := Some(m);
      return Fine;
    }
    assert results[..] == Blank();
    v := ParseItems(buf, m + 1, len, schema.value, results);
  }

  method ParseItems(buf: array<Word>, b: nat, len: nat, schema: seq<Entry>, results: array<Option<nat>>) returns (v: Verdict)
    requires InBuffer(buf[..], b, 0, len)
    requires results.Length == RESULTS_MAX && Closed(schema)
    modifies results
    ensures match Walk(buf[..], b, 0, len, schema, old(results[..]))
            case Ok(r) => v == Fine && results[..] == r
            case Err(e) => v == e != Fine
  {
    var offset, q := 0, 0;
    while offset < len
      invariant offset == 4 * q && InBuffer(buf[..], b, q, len)
      invariant Walk(buf[..], b, 0, len, schema, old(results[..])) == Walk(buf[..], b, q, len, schema, results[..])
      decreases len - offset
    {
      var h := buf[b + q];
      if IdOf(h) >= RESULTS_MAX {
        return NotImplemented;
      }
      v := ValidateItem(buf, b + q, schema);
      if v == Malformed {
        return;
      }
      if v == Fine {
        ghost var before := results[..];
        results[IdOf(h)] := Some(b + q);
        assert results[..] == before[IdOf(h) := Some(b + q)];
      }
      offset := offset + DwordLen(h) * 4;
      q := q + DwordLen(h);
    }
    v := if offset != len then Malformed else Fine;
  }

  // ----- the getters -----------------------------------------------------

  /** get_null_string: the bytes on record, last first. */
  method GetText(buf: array<Word>, p: nat, out: array<Byte>)
    requires Ample(buf[..], p) && LenOf(buf[p]) <= out.Length
    modifies out
    ensures out[..LenOf(buf[p])] == TextAt(buf[..], p)
  {
    var len := LenOf(buf[p]);
    for i := len downto 0
      invariant forall k: nat :: i <= k < len ==> out[k] == ByteOf(buf[p + 1 + k / 4], k % 4)
    {
      out[i] := ByteOf(buf[p + 1 + i / 4], i % 4);
    }
    assert out[..len] == TextAt(buf[..], p);
  }

  /** What is left to copy after k words, in the 32-bit arithmetic of the loop. */
  function Remaining(len: Word, k: nat): Word {
    (len - 4 * k) % 0x1_0000_0000
  }

  /** The copying loop ends exactly for whole words: otherwise its counter steps over zero for ever. */
  lemma CopyEndsIff(len: Word)
    ensures (exists k: nat :: Remaining(len, k) == 0) <==> len % 4 == 0
  {
    if len % 4 == 0 {
      assert Remaining(len, len / 4) == 0;
    }
    forall k: nat | Remaining(len, k) == 0
      ensures len % 4 == 0
    {
      var q := (len - 4 * k) / 0x1_0000_0000;
      assert len == 4 * (k + 0x4000_0000 * q);
    }
  }

  /** get_le_struct: nothing is copied unless the caller's length is the one on record. */
  method GetStruct(buf: array<Word>, p: nat, len: nat, out: array<Word>) returns (ok: bool)
    requires Ample(buf[..], p) && out != buf
    requires LenOf(buf[p]) == len ==> len % 4 == 0 && len / 4 <= out.Length
    modifies out
    ensures ok <==> StructAt(buf[..], p, len).Some?
    ensures ok ==> out[..len / 4] == StructAt(buf[..], p, len).value
    ensures !ok ==> out[..] == old(out[..])
  {
    if LenOf(buf[p]) != len {
      return false;
    }
    for i := 0 to len / 4
      invariant out[..i] == buf[p + 1..p + 1 + i]
    {
      out[i] := buf[p + 1 + i];
      assert buf[p + 1..p + 2 + i] == buf[p + 1..p + 1 + i] + [buf[p + 1 + i]];
    }
    assert buf[..][p + 1..p + 1 + len / 4] == buf[p + 1..p + 1 + len / 4];
    ok := true;
  }
}
