/**
 * Reading a whole message, nests and all: each item found is read by the
 * getter of its kind, each nest is parsed with its own schema.
 */
module TlvTrees {
  import opened Common
  import opened Tlv
  import opened TlvBuild
  import opened TlvParse
  import opened TlvLaws

  datatype Got =
    | GotText(bytes: seq<Byte>)
    | GotMac(found: MacResult)
    | GotFlag
    | GotNumber(raw: nat)
    | GotStruct(words: seq<Word>)
    | GotNest(fields: seq<Option<Got>>)

  /** The getter of the kind. */
  function ReadItem(w: seq<Word>, p: nat, e: Entry): Option<Got>
    requires Ample(w, p)
    decreases e
  {
    match e.kind
    case TextKind => Some(GotText(TextAt(w, p)))
    case MacKind => if p + 2 < |w| then Some(GotMac(MacAt(w, p))) else None
    case FlagKind => Some(GotFlag)
    case NumberKind =>
      if e.len !in {1, 2, 4, 8} then None
      else (match ValueAt(w, p, e.len) case Some(raw) => Some(GotNumber(raw)) case None => None)
    case StructKind => (match StructAt(w, p, e.len) case Some(words) => Some(GotStruct(words)) case None => None)
    case NestKind => ReadAll(w, p, e.inner)
    case BadKind => None
  }

  /** What the results point at. */
  function Field(w: seq<Word>, found: Option<nat>, schema: seq<Entry>, id: Id): Option<Got>
    decreases schema, 0
  {
    if found.None? || !Ample(w, found.value) || Lookup(schema, id).None? then None
    else ReadItem(w, found.value, Lookup(schema, id).value)
  }

  /** Parse the message, or the nest, at position m, and read everything found. */
  function ReadAll(w: seq<Word>, m: nat, schema: seq<Entry>): Option<Got>
    requires m < |w|
    decreases schema, 1
  {
    if !InBuffer(w, m + 1, 0, LenOf(w[m])) then None
    else
      match Walk(w, m + 1, 0, LenOf(w[m]), schema, Blank())
      case Err(_) => None
      case Ok(r) => Some(GotNest(seq(RESULTS_MAX, i requires 0 <= i < RESULTS_MAX => Field(w, r[i], schema, i))))
  }

  // ----- what was put in -------------------------------------------------

  /** Every item is what the schema describes, at every depth. */
  predicate Described(schema: seq<Entry>, attrs: seq<Attr>)
    requires AllSensible(attrs)
    decreases attrs
  {
    attrs == []
    || (&& Typed(schema, attrs[0])
        && (attrs[0].Nest? && Known(schema, attrs[0].id) ==>
              Described(Lookup(schema, attrs[0].id).value.inner, attrs[0].attrs))
        && Described(schema, attrs[1..]))
  }

  lemma {:induction false} DescribedIsTyped(schema: seq<Entry>, attrs: seq<Attr>)
    requires AllSensible(attrs) && Described(schema, attrs)
    ensures AllTyped(schema, attrs)
    decreases attrs
  {
    if attrs != [] {
      DescribedIsTyped(schema, attrs[1..]);
    }
  }

  type Fields = f: seq<Option<Got>> | |f| == RESULTS_MAX witness seq(RESULTS_MAX, i => None)

  function NoFields(): Fields {
    seq(RESULTS_MAX, i => None)
  }

  /** The item's own contents. */
  function Contents(a: Attr, e: Entry): Got
    requires Sensible(a) && (a.Nest? ==> Described(e.inner, a.attrs))
    decreases a
  {
    match a
    case Text(_, chars) => GotText(chars + [0])
    case MacVlan(_, mac, vlan) => GotMac(MacResult(mac, vlan))
    case Flag(_) => GotFlag
    case Value(_, _, raw) => GotNumber(raw)
    case Struct(_, words) => GotStruct(words)
    case Nest(_, attrs) => GotNest(Expected(attrs, e.inner, NoFields()))
  }

  /** For each id the contents of the last item under it; what is unknown or left nothing is skipped. */
  function Expected(attrs: seq<Attr>, schema: seq<Entry>, f: Fields): Fields
    requires AllSensible(attrs) && Described(schema, attrs)
    decreases attrs
  {
    if attrs == [] then f
    else
      var a := attrs[0];
      Expected(attrs[1..], schema,
        if Encode(a) != [] && Known(schema, a.id)
        then f[a.id := Some(Contents(a, Lookup(schema, a.id).value))] else f)
  }

  // ----- the round trip --------------------------------------------------

  /** Results that point at these contents. */
  predicate Points(w: seq<Word>, schema: seq<Entry>, r: Results, f: Fields) {
    forall i: Id :: i < RESULTS_MAX ==> Field(w, r[i], schema, i) == f[i]
  }

  lemma {:induction false} ItemReadsBack(w: seq<Word>, p: nat, a: Attr, e: Entry)
    requires Sensible(a) && Fits(a) && Describes(e, a) && (a.Nest? ==> Described(e.inner, a.attrs))
    requires Encode(a) != [] && StandsAt(w, p, Encode(a))
    ensures Ample(w, p) && ReadItem(w, p, e) == Some(Contents(a, e))
    decreases a
  {
    HeaderSpans(a);
    WordsOf(w, p, Encode(a), 0);
    ItemsSpan(w[p]);
    match a
    case Text(id, chars) => TextReadsBack(w, p, id, chars);
    case MacVlan(id, mac, vlan) => MacReadsBack(w, p, id, mac, vlan);
    case Flag(_) =>
    case Value(_, _, _) => ValueReadsBack(w, p, a);
    case Struct(id, words) => StructReadsBack(w, p, id, words);
    case Nest(id, attrs) =>
      NestHolds(w, p, id, attrs);
      TreeReadsBack(w, p, attrs, e.inner);
  }

  lemma FieldIs(w: seq<Word>, p: nat, schema: seq<Entry>, id: Id)
    requires Ample(w, p) && Known(schema, id)
    ensures Field(w, Some(p), schema, id) == ReadItem(w, p, Lookup(schema, id).value)
  {
  }

  lemma {:induction false} FieldsReadBack(w: seq<Word>, p: nat, attrs: seq<Attr>, schema: seq<Entry>, r: Results, f: Fields)
    requires AllSensible(attrs) && AllFit(attrs) && Described(schema, attrs) && AllTyped(schema, attrs)
    requires StandsAt(w, p, EncodeAll(attrs)) && Points(w, schema, r, f)
    ensures Points(w, schema, Placed(attrs, p, schema, r), Expected(attrs, schema, f))
    decreases attrs, 0
  {
    hide Encode, Field, Lookup, Fits, Contents;
    if attrs != [] {
      var a := attrs[0];
      SplitAt(w, p, Encode(a), EncodeAll(attrs[1..]));
      if Encode(a) != [] && Known(schema, a.id) {
        var e := Lookup(schema, a.id).value;
        ItemReadsBack(w, p, a, e);
        var next, got := r[a.id := Some(p)], f[a.id := Some(Contents(a, e))];
        FieldIs(w, p, schema, a.id);
        FieldsReadBack(w, p + |Encode(a)|, attrs[1..], schema, next, got);
      } else {
        FieldsReadBack(w, p + |Encode(a)|, attrs[1..], schema, r, f);
      }
    }
  }

  /**
   * Build, parse, get, at every depth: reading the message gives, for each
   * known id, exactly what was last put under it, and nothing else.
   */
  lemma {:induction false} TreeReadsBack(w: seq<Word>, m: nat, attrs: seq<Attr>, schema: seq<Entry>)
    requires AllSensible(attrs) && AllFit(attrs) && Described(schema, attrs) && Holds(w, m, attrs)
    ensures ReadAll(w, m, schema) == Some(GotNest(Expected(attrs, schema, NoFields())))
    decreases attrs, 1
  {
    DescribedIsTyped(schema, attrs);
    BuiltMessagesParse(w, m + 1, 0, LenOf(w[m]), attrs, schema, Blank());
    FieldsReadBack(w, m + 1, attrs, schema, Blank(), NoFields());
    var r, f := Placed(attrs, m + 1, schema, Blank()), Expected(attrs, schema, NoFields());
    assert seq(RESULTS_MAX, i requires 0 <= i < RESULTS_MAX => Field(w, r[i], schema, i)) == f;
  }

  /** The same in one buffer. */
  method BuildAndRead(buf: array<Word>, id: Id, attrs: seq<Attr>, schema: seq<Entry>) returns (got: Option<Got>)
    requires AllSensible(attrs) && AllFit(attrs) && Described(schema, attrs)
    requires |EncodeAll(attrs)| < 1024 && 1 + RoomAll(attrs) <= buf.Length
    modifies buf
    ensures got == Some(GotNest(Expected(attrs, schema, NoFields())))
  {
    Build(buf, id, attrs);
    TreeReadsBack(buf[..], 0, attrs, schema);
    got := ReadAll(buf[..], 0, schema);
  }
}
