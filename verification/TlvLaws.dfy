/** What parsing promises: of any message, and of one that was built. */
module TlvLaws {
  import opened Common
  import opened Tlv
  import opened TlvBuild
  import opened TlvParse

  // ----- any message -----------------------------------------------------

  /** The items stand end to end from word q of the body to exactly its length. */
  ghost predicate Tiles(w: seq<Word>, b: nat, heads: seq<nat>, q: nat, len: nat)
    requires b + (len + 3) / 4 <= |w|
    decreases |heads|
  {
    if heads == [] then 4 * q == len
    else heads[0] == q && 4 * q < len && Tiles(w, b, heads[1..], q + DwordLen(w[b + q]), len)
  }

  /** Each item has an id that fits and is either well-formed or unknown. */
  ghost predicate Admissible(w: seq<Word>, b: nat, heads: seq<nat>, len: nat, schema: seq<Entry>)
    requires b + (len + 3) / 4 <= |w|
  {
    forall q: nat <- heads :: 4 * q < len ==>
      Ample(w, b + q) && IdOf(w[b + q]) < RESULTS_MAX && Validate(w, b + q, schema) != Malformed
  }

  /** The last well-formed item of each id. */
  function Found(w: seq<Word>, b: nat, heads: seq<nat>, len: nat, schema: seq<Entry>, r: Results): Results
    requires b + (len + 3) / 4 <= |w|
    decreases |heads|
  {
    if heads == [] then r
    else
      var q := heads[0];
      if 4 * q < len && Ample(w, b + q) && IdOf(w[b + q]) < RESULTS_MAX && Validate(w, b + q, schema) == Fine
      then Found(w, b, heads[1..], len, schema, r[IdOf(w[b + q]) := Some(b + q)])
      else Found(w, b, heads[1..], len, schema, r)
  }

  /** A successful walk has found a tiling of the whole length, and collected it. */
  lemma {:induction false} SuccessTiles(w: seq<Word>, b: nat, q: nat, len: nat, schema: seq<Entry>, r: Results)
    returns (heads: seq<nat>)
    requires b + (len + 3) / 4 <= |w| && InBuffer(w, b, q, len) && Walk(w, b, q, len, schema, r).Ok?
    ensures Tiles(w, b, heads, q, len) && Admissible(w, b, heads, len, schema)
    ensures Walk(w, b, q, len, schema, r) == Ok(Found(w, b, heads, len, schema, r))
    decreases len - 4 * q
  {
    hide Validate, DwordLen, IdOf;
    if 4 * q >= len {
      heads := [];
    } else {
      var h := w[b + q];
      ItemsSpan(h);
      var next := if Validate(w, b + q, schema) == Fine then r[IdOf(h) := Some(b + q)] else r;
      var rest := SuccessTiles(w, b, q + DwordLen(h), len, schema, next);
      heads := [q] + rest;
      assert heads[1..] == rest;
    }
  }

  /** ... and nothing else can fail: a tiling of admissible items always parses. */
  lemma {:induction false} TilingSucceeds(w: seq<Word>, b: nat, heads: seq<nat>, q: nat, len: nat, schema: seq<Entry>, r: Results)
    requires b + (len + 3) / 4 <= |w| && InBuffer(w, b, q, len)
    requires Tiles(w, b, heads, q, len) && Admissible(w, b, heads, len, schema)
    ensures Walk(w, b, q, len, schema, r) == Ok(Found(w, b, heads, len, schema, r))
    decreases |heads|
  {
    hide Validate, DwordLen, IdOf;
    if heads != [] {
      var h := w[b + q];
      assert q in heads && forall k <- heads[1..] :: k in heads;
      var next := if Validate(w, b + q, schema) == Fine then r[IdOf(h) := Some(b + q)] else r;
      TilingSucceeds(w, b, heads[1..], q + DwordLen(h), len, schema, next);
    }
  }

  /** Parsing succeeds exactly when admissible items tile the message. */
  lemma ParsesIffTiled(w: seq<Word>, b: nat, len: nat, schema: seq<Entry>)
    requires b + (len + 3) / 4 <= |w| && InBuffer(w, b, 0, len)
    ensures Walk(w, b, 0, len, schema, Blank()).Ok? <==>
              exists heads: seq<nat> :: Tiles(w, b, heads, 0, len) && Admissible(w, b, heads, len, schema)
  {
    if Walk(w, b, 0, len, schema, Blank()).Ok? {
      var heads := SuccessTiles(w, b, 0, len, schema, Blank());
    }
    if heads: seq<nat> :| Tiles(w, b, heads, 0, len) && Admissible(w, b, heads, len, schema) {
      TilingSucceeds(w, b, heads, 0, len, schema, Blank());
    }
  }

  /** The length of a message that parses is whole words. */
  lemma {:induction false} TiledLengthIsWords(w: seq<Word>, b: nat, heads: seq<nat>, q: nat, len: nat)
    requires b + (len + 3) / 4 <= |w| && Tiles(w, b, heads, q, len)
    ensures len % 4 == 0
    decreases |heads|
  {
    if heads != [] {
      TiledLengthIsWords(w, b, heads[1..], q + DwordLen(w[b + q]), len);
    }
  }

  // ----- a message that was built ----------------------------------------

  predicate Known(schema: seq<Entry>, id: Id) {
    Lookup(schema, id).Some?
  }

  /** The schema entry is for items like this one. */
  predicate Describes(e: Entry, a: Attr)
    requires Sensible(a)
  {
    match a
    case Text(_, chars) => e.kind == TextKind && |chars| + 1 <= e.len
    case MacVlan(_, _, _) => e.kind == MacKind
    case Flag(_) => e.kind == FlagKind
    case Value(_, len, _) => e.kind == NumberKind && e.len == len
    case Struct(_, words) => e.kind == StructKind && e.len == 4 * |words|
    case Nest(_, _) => e.kind == NestKind
  }

  /** The item is what its schema entry, if there is one, describes. */
  predicate Typed(schema: seq<Entry>, a: Attr)
    requires Sensible(a)
  {
    a.id < RESULTS_MAX && (Known(schema, a.id) ==> Describes(Lookup(schema, a.id).value, a))
  }

  predicate AllTyped(schema: seq<Entry>, attrs: seq<Attr>)
    requires AllSensible(attrs)
    decreases attrs
  {
    attrs == [] || (Typed(schema, attrs[0]) && AllTyped(schema, attrs[1..]))
  }

  /** What was built as described is accepted as described, and skipped if it is not described. */
  lemma BuiltItemsValidate(w: seq<Word>, p: nat, schema: seq<Entry>, a: Attr)
    requires Sensible(a) && Fits(a) && Typed(schema, a) && Encode(a) != []
    requires StandsAt(w, p, Encode(a))
    ensures Ample(w, p)
    ensures IdOf(w[p]) == a.id && DwordLen(w[p]) == |Encode(a)|
    ensures Validate(w, p, schema) == if Known(schema, a.id) then Fine else NotImplemented
  {
    HeaderSpans(a);
    WordsOf(w, p, Encode(a), 0);
    if Known(schema, a.id) {
      BuiltItemsAreAccepted(w, p, a, Lookup(schema, a.id).value);
    }
  }

  lemma BuiltItemsAreAccepted(w: seq<Word>, p: nat, a: Attr, e: Entry)
    requires Sensible(a) && Fits(a) && Describes(e, a) && Encode(a) != []
    requires StandsAt(w, p, Encode(a)) && Ample(w, p)
    ensures Accepts(w, p, e)
  {
    WordsOf(w, p, Encode(a), 0);
    match a
    case Text(id, chars) =>
      HeaderFields(|chars| + 1, id);
      TextReadsBack(w, p, id, chars);
      assert TextAt(w, p)[|chars|] == 0;
    case MacVlan(id, _, _) => HeaderFields(6, id);
    case Flag(id) => HeaderFields(0, id);
    case Value(id, len, _) => HeaderFields(len, id);
    case Struct(id, words) => HeaderFields(4 * |words|, id);
    case Nest(id, attrs) => HeaderFields(4 * |EncodeAll(attrs)|, id);
  }

  /** Where the results end up pointing. */
  function Placed(attrs: seq<Attr>, pos: nat, schema: seq<Entry>, r: Results): Results
    requires AllSensible(attrs) && AllTyped(schema, attrs)
    decreases attrs
  {
    if attrs == [] then r
    else
      var a := attrs[0];
      Placed(attrs[1..], pos + |Encode(a)|, schema,
        if Encode(a) != [] && Known(schema, a.id) then r[a.id := Some(pos)] else r)
  }

  lemma SplitAt(w: seq<Word>, p: nat, a: seq<Word>, c: seq<Word>)
    requires StandsAt(w, p, a + c)
    ensures StandsAt(w, p, a) && StandsAt(w, p + |a|, c)
  {
    assert w[p..p + |a|] == w[p..p + |a + c|][..|a|] == a;
    assert w[p + |a|..p + |a| + |c|] == w[p..p + |a + c|][|a|..] == c;
  }

  lemma FirstFitsId(schema: seq<Entry>, a: Attr)
    requires Sensible(a) && Typed(schema, a)
    ensures a.id < RESULTS_MAX
  {
  }

  /** Parsing what was built succeeds, and finds each item where it was put. */
  lemma {:induction false} BuiltMessagesParse(w: seq<Word>, b: nat, q: nat, len: nat, attrs: seq<Attr>, schema: seq<Entry>, r: Results)
    requires AllSensible(attrs) && AllFit(attrs) && AllTyped(schema, attrs)
    requires len == 4 * (q + |EncodeAll(attrs)|) && StandsAt(w, b + q, EncodeAll(attrs))
    ensures InBuffer(w, b, q, len)
    ensures Walk(w, b, q, len, schema, r) == Ok(Placed(attrs, b + q, schema, r))
    decreases attrs
  {
    hide Encode, Validate, IdOf, DwordLen, LenOf, Lookup, Fits, Typed, Known;
    if attrs != [] {
      var a := attrs[0];
      FirstFitsId(schema, a);
      SplitAt(w, b + q, Encode(a), EncodeAll(attrs[1..]));
      if Encode(a) == [] {
        BuiltMessagesParse(w, b, q, len, attrs[1..], schema, r);
      } else {
        BuiltItemsValidate(w, b + q, schema, a);
        var next := if Known(schema, a.id) then r[a.id := Some(b + q)] else r;
        BuiltMessagesParse(w, b, q + |Encode(a)|, len, attrs[1..], schema, next);
      }
    }
  }

  /** How far into the body item k stands. */
  function Offset(attrs: seq<Attr>, k: nat): nat
    requires AllSensible(attrs) && k < |attrs|
    decreases attrs
  {
    if k == 0 then 0 else |Encode(attrs[0])| + Offset(attrs[1..], k - 1)
  }

  lemma {:induction false} EachIsSensible(attrs: seq<Attr>, k: nat)
    requires AllSensible(attrs) && k < |attrs|
    ensures Sensible(attrs[k])
  {
    if k > 0 {
      EachIsSensible(attrs[1..], k - 1);
    }
  }

  lemma {:induction false} ItemStands(w: seq<Word>, p: nat, attrs: seq<Attr>, k: nat)
    requires AllSensible(attrs) && k < |attrs| && StandsAt(w, p, EncodeAll(attrs))
    ensures Sensible(attrs[k]) && StandsAt(w, p + Offset(attrs, k), Encode(attrs[k]))
    decreases attrs
  {
    SplitAt(w, p, Encode(attrs[0]), EncodeAll(attrs[1..]));
    if k > 0 {
      ItemStands(w, p + |Encode(attrs[0])|, attrs[1..], k - 1);
    }
  }

  /** Item k leaves something, and its id is the schema's. */
  predicate Counts(attrs: seq<Attr>, k: nat, schema: seq<Entry>)
    requires AllSensible(attrs) && k < |attrs|
  {
    EachIsSensible(attrs, k);
    Encode(attrs[k]) != [] && Known(schema, attrs[k].id)
  }

  /** Duplicates: the last one wins. */
  lemma {:induction false} LastWins(attrs: seq<Attr>, k: nat, pos: nat, schema: seq<Entry>, r: Results)
    requires AllSensible(attrs) && AllTyped(schema, attrs) && k < |attrs| && Counts(attrs, k, schema)
    requires forall j: nat :: k < j < |attrs| && Counts(attrs, j, schema) ==> attrs[j].id != attrs[k].id
    ensures attrs[k].id < RESULTS_MAX
    ensures Placed(attrs, pos, schema, r)[attrs[k].id] == Some(pos + Offset(attrs, k))
    decreases attrs
  {
    var a := attrs[0];
    var next := if Encode(a) != [] && Known(schema, a.id) then r[a.id := Some(pos)] else r;
    if k > 0 {
      forall j: nat | k - 1 < j < |attrs[1..]| && Counts(attrs[1..], j, schema)
        ensures attrs[1..][j].id != attrs[1..][k - 1].id
      {
        assert Counts(attrs, j + 1, schema);
      }
      LastWins(attrs[1..], k - 1, pos + |Encode(a)|, schema, next);
    } else {
      forall j: nat | j < |attrs[1..]| && Counts(attrs[1..], j, schema)
        ensures attrs[1..][j].id != a.id
      {
        assert Counts(attrs, j + 1, schema);
      }
      OthersStay(attrs[1..], a.id, pos + |Encode(a)|, schema, next);
    }
  }

  /** An id nothing was put under keeps what it had. */
  lemma {:induction false} OthersStay(attrs: seq<Attr>, id: Id, pos: nat, schema: seq<Entry>, r: Results)
    requires AllSensible(attrs) && AllTyped(schema, attrs) && id < RESULTS_MAX
    requires forall j: nat :: j < |attrs| && Counts(attrs, j, schema) ==> attrs[j].id != id
    ensures Placed(attrs, pos, schema, r)[id] == r[id]
    decreases attrs
  {
    if attrs != [] {
      var a := attrs[0];
      assert Encode(a) != [] && Known(schema, a.id) ==> Counts(attrs, 0, schema);
      forall j: nat | j < |attrs[1..]| && Counts(attrs[1..], j, schema)
        ensures attrs[1..][j].id != id
      {
        assert Counts(attrs, j + 1, schema);
      }
      var next := if Encode(a) != [] && Known(schema, a.id) then r[a.id := Some(pos)] else r;
      OthersStay(attrs[1..], id, pos + |Encode(a)|, schema, next);
    }
  }

  /** Nothing known was put under this id. */
  predicate Unused(attrs: seq<Attr>, id: Id, schema: seq<Entry>)
    requires AllSensible(attrs)
  {
    forall j: nat | j < |attrs| :: Counts(attrs, j, schema) ==> attrs[j].id != id
  }

  /** Item k is the one its id gives. */
  predicate IsLast(attrs: seq<Attr>, k: nat, schema: seq<Entry>)
    requires AllSensible(attrs)
  {
    && k < |attrs| && Counts(attrs, k, schema)
    && forall j: nat | k < j < |attrs| :: Counts(attrs, j, schema) ==> attrs[j].id != attrs[k].id
  }

  /** A built message, or a built nest, at position m. */
  predicate Holds(w: seq<Word>, m: nat, attrs: seq<Attr>)
    requires AllSensible(attrs)
  {
    m < |w| && LenOf(w[m]) == 4 * |EncodeAll(attrs)| && StandsAt(w, m + 1, EncodeAll(attrs))
  }

  /**
   * The round trip: the parse succeeds; the last item of each known id is
   * found, standing whole at the position found; ids put under nothing known
   * are not found.
   */
  lemma RoundTrip(w: seq<Word>, m: nat, attrs: seq<Attr>, schema: seq<Entry>)
    requires AllSensible(attrs) && AllFit(attrs) && AllTyped(schema, attrs) && Holds(w, m, attrs)
    ensures InBuffer(w, m + 1, 0, LenOf(w[m]))
    ensures var parsed := Walk(w, m + 1, 0, LenOf(w[m]), schema, Blank());
            && parsed.Ok?
            && (forall k: nat :: IsLast(attrs, k, schema) ==>
                  && Sensible(attrs[k]) && attrs[k].id < RESULTS_MAX
                  && parsed.results[attrs[k].id] == Some(m + 1 + Offset(attrs, k))
                  && StandsAt(w, m + 1 + Offset(attrs, k), Encode(attrs[k])))
            && (forall id: Id :: id < RESULTS_MAX && Unused(attrs, id, schema) ==> parsed.results[id] == None)
  {
    hide Walk, Placed, Encode, LenOf;
    BuiltMessagesParse(w, m + 1, 0, LenOf(w[m]), attrs, schema, Blank());
    forall k: nat | IsLast(attrs, k, schema)
      ensures Sensible(attrs[k]) && attrs[k].id < RESULTS_MAX
      ensures Placed(attrs, m + 1, schema, Blank())[attrs[k].id] == Some(m + 1 + Offset(attrs, k))
      ensures StandsAt(w, m + 1 + Offset(attrs, k), Encode(attrs[k]))
    {
      LastWins(attrs, k, m + 1, schema, Blank());
      ItemStands(w, m + 1, attrs, k);
    }
    forall id: Id | id < RESULTS_MAX && Unused(attrs, id, schema)
      ensures Placed(attrs, m + 1, schema, Blank())[id] == None
    {
      OthersStay(attrs, id, m + 1, schema, Blank());
    }
  }

  /** A nest that stands is a message for its own items. */
  lemma NestHolds(w: seq<Word>, p: nat, id: Id, attrs: seq<Attr>)
    requires AllSensible(attrs) && |EncodeAll(attrs)| < 1024 && EncodeAll(attrs) != []
    requires StandsAt(w, p, Encode(Nest(id, attrs)))
    ensures Holds(w, p, attrs)
  {
    var body := EncodeAll(attrs);
    WordsOf(w, p, Encode(Nest(id, attrs)), 0);
    HeaderFields(4 * |body|, id);
    SplitAt(w, p, [Header(4 * |body|, id)], body);
  }

  /** An id beyond the results array stops the parse, whatever the schema says. */
  lemma LargeIdsStop(w: seq<Word>, b: nat, q: nat, len: nat, schema: seq<Entry>, r: Results)
    requires InBuffer(w, b, q, len) && 4 * q < len
    ensures IdOf(w[b + q]) >= RESULTS_MAX ==> Walk(w, b, q, len, schema, r) == Err(NotImplemented)
  {
  }

  /** Built in one buffer, parsed in place: the same items come back. */
  method BuildAndParse(buf: array<Word>, id: Id, attrs: seq<Attr>, schema: seq<Entry>, results: array<Option<nat>>)
    returns (v: Verdict)
    requires AllSensible(attrs) && AllFit(attrs) && AllTyped(schema, attrs) && Closed(schema)
    requires |EncodeAll(attrs)| < 1024 && 1 + RoomAll(attrs) <= buf.Length
    requires results.Length == RESULTS_MAX
    modifies buf, results
    ensures v == Fine && Holds(buf[..], 0, attrs)
    ensures forall k: nat :: IsLast(attrs, k, schema) ==>
              && Sensible(attrs[k]) && attrs[k].id < RESULTS_MAX
              && results[..][attrs[k].id] == Some(1 + Offset(attrs, k))
              && StandsAt(buf[..], 1 + Offset(attrs, k), Encode(attrs[k]))
  {
    hide Walk, Encode, LenOf, IsLast, RoomAll, AllFit, AllTyped;
    Build(buf, id, attrs);
    ghost var w := buf[..];
    assert w[0] == buf[0];
    RoundTrip(w, 0, attrs, schema);
    v := Parse(buf, 0, Some(schema), results);
    assert buf[..] == w;
    FoundAsBuilt(w, attrs, schema, results[..]);
  }

  lemma FoundAsBuilt(w: seq<Word>, attrs: seq<Attr>, schema: seq<Entry>, results: Results)
    requires AllSensible(attrs) && AllFit(attrs) && AllTyped(schema, attrs) && Holds(w, 0, attrs)
    requires InBuffer(w, 1, 0, LenOf(w[0]))
    requires LenOf(w[0]) != 0 ==> Walk(w, 1, 0, LenOf(w[0]), schema, Blank()) == Ok(results)
    ensures forall k: nat :: IsLast(attrs, k, schema) ==>
              && Sensible(attrs[k]) && attrs[k].id < RESULTS_MAX
              && results[attrs[k].id] == Some(1 + Offset(attrs, k))
              && StandsAt(w, 1 + Offset(attrs, k), Encode(attrs[k]))
  {
    hide Walk, Encode, LenOf, Counts, InBuffer;
    if LenOf(w[0]) == 0 {
      EmptyHasNoLast(attrs, schema);
    } else {
      RoundTrip(w, 0, attrs, schema);
    }
  }

  lemma EmptyHasNoLast(attrs: seq<Attr>, schema: seq<Entry>)
    requires AllSensible(attrs) && EncodeAll(attrs) == []
    ensures forall k: nat :: !IsLast(attrs, k, schema)
  {
    forall k: nat | k < |attrs|
      ensures !Counts(attrs, k, schema)
    {
      EmptyHasNoItems(attrs, k);
    }
  }

  lemma {:induction false} EmptyHasNoItems(attrs: seq<Attr>, k: nat)
    requires AllSensible(attrs) && k < |attrs| && EncodeAll(attrs) == []
    ensures Sensible(attrs[k]) && Encode(attrs[k]) == []
  {
    if k > 0 {
      EmptyHasNoItems(attrs[1..], k - 1);
    }
  }
}
