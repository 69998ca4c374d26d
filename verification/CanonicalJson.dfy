/**
 * Canonical JSON: the text a value is hashed by, its object keys sorted by
 * code unit (src/control/encoding.ts). Text is a sequence of UTF-16 code
 * units; strings are quoted as section 7 of RFC 8259 has it, with lone
 * surrogates escaped.
 */
module CanonicalJson {
  import opened WorkTypes

  type Unit = u: int | 0 <= u < 0x1_0000

  type Text = seq<Unit>

  const QUOTE: Unit := 34
  const COMMA: Unit := 44
  const COLON: Unit := 58
  const OPEN_BRACKET: Unit := 91
  const BACKSLASH: Unit := 92
  const CLOSE_BRACKET: Unit := 93
  const OPEN_BRACE: Unit := 123
  const CLOSE_BRACE: Unit := 125

  // ----- values and what they mean -----------------------------------------------------

  /** A finite number is named by its shortest decimal text, which is one per value; -0 is not 0 until it is printed. */
  datatype Number = Finite(text: Text) | NegativeZero | NotFinite

  /** An object holds its fields in insertion order, under distinct keys. */
  datatype Value =
    | Null
    | Bool(truth: bool)
    | Num(number: Number)
    | Str(text: Text)
    | Arr(elements: seq<Value>)
    | Obj(fields: seq<Field>)

  datatype Field = Field(key: Text, value: Value)

  /** A JSON value proper: objects are maps, and there is one zero. */
  datatype Meaning =
    | NullMeaning
    | BoolMeaning(truth: bool)
    | NumMeaning(text: Text)
    | StrMeaning(text: Text)
    | ArrMeaning(elements: seq<Meaning>)
    | ObjMeaning(fields: map<Text, Meaning>)

  const ZERO: Text := [48]

  function NumberText(n: Number): Text
    requires !n.NotFinite?
  {
    if n.NegativeZero? then ZERO else n.text
  }

  predicate NumberUnit(u: Unit) {
    48 <= u <= 57 || u == 43 || u == 45 || u == 46 || u == 101
  }

  /** Numbers print to their decimal texts, and keys are distinct. */
  predicate WellFormed(v: Value) {
    match v
    case Num(Finite(text)) => text != [] && forall k :: 0 <= k < |text| ==> NumberUnit(text[k])
    case Arr(elements) => forall k :: 0 <= k < |elements| ==> WellFormed(elements[k])
    case Obj(fields) =>
      && (forall j, k :: 0 <= j < k < |fields| ==> fields[j].key != fields[k].key)
      && (forall k :: 0 <= k < |fields| ==> WellFormed(fields[k].value))
    case _ => true
  }

  predicate AllFinite(v: Value) {
    match v
    case Num(n) => !n.NotFinite?
    case Arr(elements) => forall k :: 0 <= k < |elements| ==> AllFinite(elements[k])
    case Obj(fields) => forall k :: 0 <= k < |fields| ==> AllFinite(fields[k].value)
    case _ => true
  }

  predicate Encodable(v: Value) {
    WellFormed(v) && AllFinite(v)
  }

  function Denote(v: Value): Meaning
    requires AllFinite(v)
    decreases v, 1
  {
    match v
    case Null => NullMeaning
    case Bool(truth) => BoolMeaning(truth)
    case Num(n) => NumMeaning(NumberText(n))
    case Str(text) => StrMeaning(text)
    case Arr(elements) => ArrMeaning(seq(|elements|, k requires 0 <= k < |elements| => Denote(elements[k])))
    case Obj(fields) => ObjMeaning(MapOf(DenotedFields(v)))
  }

  function DenotedFields(v: Value): seq<Named>
    requires v.Obj? && AllFinite(v)
    decreases v, 0
  {
    seq(|v.fields|, k requires 0 <= k < |v.fields| => Named(v.fields[k].key, Denote(v.fields[k].value)))
  }

  datatype Named = Named(key: Text, value: Meaning)

  function MapOf(pairs: seq<Named>): map<Text, Meaning> {
    if pairs == [] then map[]
    else MapOf(pairs[..|pairs| - 1])[pairs[|pairs| - 1].key := pairs[|pairs| - 1].value]
  }

  // ----- the encoder ------------------------------------------------------------------------

  /** A field with its value already encoded. */
  datatype Entry = Entry(key: Text, text: Text)

  function HexDigit(d: int): Unit
    requires 0 <= d < 16
  {
    if d < 10 then 48 + d else 87 + d
  }

  function Hex4(u: Unit): Text {
    [HexDigit(u / 4096), HexDigit(u / 256 % 16), HexDigit(u / 16 % 16), HexDigit(u % 16)]
  }

  predicate High(u: Unit) {
    0xD800 <= u <= 0xDBFF
  }

  predicate Low(u: Unit) {
    0xDC00 <= u <= 0xDFFF
  }

  /** The letter of a two-character escape, for the seven units that have one. */
  function ShortEscape(u: Unit): Unit {
    if u == 8 then 98
    else if u == 9 then 116
    else if u == 10 then 110
    else if u == 12 then 102
    else if u == 13 then 114
    else if u == QUOTE then QUOTE
    else if u == BACKSLASH then BACKSLASH
    else 0
  }

  /** One unit that is not half of a surrogate pair. */
  function Escape(u: Unit): Text {
    if ShortEscape(u) != 0 then [BACKSLASH, ShortEscape(u)]
    else if u < 32 || High(u) || Low(u) then [BACKSLASH, 117] + Hex4(u)
    else [u]
  }

  predicate Paired(s: Text) {
    |s| >= 2 && High(s[0]) && Low(s[1])
  }

  function Body(s: Text): Text {
    if s == [] then []
    else if Paired(s) then [s[0], s[1]] + Body(s[2..])
    else Escape(s[0]) + Body(s[1..])
  }

  function Quote(s: Text): Text {
    [QUOTE] + Body(s) + [QUOTE]
  }

  function Join(parts: seq<Text>): Text {
    if parts == [] then []
    else if |parts| == 1 then parts[0]
    else parts[0] + [COMMA] + Join(parts[1..])
  }

  /** Code-unit order, the order of `.sort()`. */
  predicate Less(a: Text, b: Text) {
    b != [] && (a == [] || a[0] < b[0] || (a[0] == b[0] && Less(a[1..], b[1..])))
  }

  function InsertByKey(p: Entry, sorted: seq<Entry>): seq<Entry> {
    if sorted == [] || !Less(sorted[0].key, p.key) then [p] + sorted
    else [sorted[0]] + InsertByKey(p, sorted[1..])
  }

  function SortByKey(pairs: seq<Entry>): seq<Entry> {
    if pairs == [] then [] else InsertByKey(pairs[0], SortByKey(pairs[1..]))
  }

  function FieldText(p: Entry): Text {
    Quote(p.key) + [COLON] + p.text
  }

  function FieldTexts(pairs: seq<Entry>): seq<Text> {
    seq(|pairs|, k requires 0 <= k < |pairs| => FieldText(pairs[k]))
  }

  function Encode(v: Value): Text
    requires AllFinite(v)
    decreases v, 1
  {
    match v
    case Null => [110, 117, 108, 108]
    case Bool(truth) => if truth then [116, 114, 117, 101] else [102, 97, 108, 115, 101]
    case Num(n) => NumberText(n)
    case Str(text) => Quote(text)
    case Arr(_) => [OPEN_BRACKET] + Join(EncodedElements(v)) + [CLOSE_BRACKET]
    case Obj(_) => [OPEN_BRACE] + Join(FieldTexts(SortByKey(EncodedFields(v)))) + [CLOSE_BRACE]
  }

  function EncodedElements(v: Value): seq<Text>
    requires v.Arr? && AllFinite(v)
    decreases v, 0
  {
    seq(|v.elements|, k requires 0 <= k < |v.elements| => Encode(v.elements[k]))
  }

  function EncodedFields(v: Value): seq<Entry>
    requires v.Obj? && AllFinite(v)
    decreases v, 0
  {
    seq(|v.fields|, k requires 0 <= k < |v.fields| => Entry(v.fields[k].key, Encode(v.fields[k].value)))
  }

  /** The canonical text, or none: a number that is not finite is refused. */
  function Canonical(v: Value): (text: Option<Text>) {
    if AllFinite(v) then Some(Encode(v)) else None
  }

  // ----- strings delimit themselves ---------------------------------------------------------------

  lemma HexDigitIsInjective(c: int, d: int)
    requires 0 <= c < 16 && 0 <= d < 16 && HexDigit(c) == HexDigit(d)
    ensures c == d
  {
  }

  lemma FourDigits(u: Unit)
    ensures u == 4096 * (u / 4096) + 256 * (u / 256 % 16) + 16 * (u / 16 % 16) + u % 16
  {
    assert u / 16 == 16 * (u / 16 / 16) + u / 16 % 16;
    assert u / 256 == 16 * (u / 256 / 16) + u / 256 % 16;
    assert u / 16 / 16 == u / 256 && u / 256 / 16 == u / 4096;
  }

  lemma HexIsInjective(u: Unit, v: Unit)
    requires Hex4(u) == Hex4(v)
    ensures u == v
  {
    assert forall k :: 0 <= k < 4 ==> Hex4(u)[k] == Hex4(v)[k];
    HexDigitIsInjective(u / 4096, v / 4096);
    HexDigitIsInjective(u / 256 % 16, v / 256 % 16);
    HexDigitIsInjective(u / 16 % 16, v / 16 % 16);
    HexDigitIsInjective(u % 16, v % 16);
    FourDigits(u);
    FourDigits(v);
  }

  lemma EscapeStarts(u: Unit)
    ensures Escape(u) != [] && Escape(u)[0] != QUOTE && !High(Escape(u)[0])
  {
  }

  /** An escaped unit is told apart by its own text, whatever follows. */
  lemma EscapeUnique(u: Unit, v: Unit, x: Text, y: Text)
    requires Escape(u) + x == Escape(v) + y
    ensures u == v && x == y
  {
    var left, right := Escape(u) + x, Escape(v) + y;
    assert left[0] == right[0];
    if left[0] == BACKSLASH {
      assert left[1] == right[1];
      if left[1] == 117 {
        assert left[2..6] == Hex4(u) && right[2..6] == Hex4(v);
        HexIsInjective(u, v);
      }
    }
    assert u == v;
    assert x == left[|Escape(u)|..];
  }

  lemma BodyStarts(s: Text)
    requires s != []
    ensures Body(s) != [] && Body(s)[0] != QUOTE && (High(Body(s)[0]) <==> Paired(s))
  {
    EscapeStarts(s[0]);
  }

  /** What is left to print of a quoted string, and what follows it. */
  function Remaining(s: Text, x: Text): Text {
    Body(s) + ([QUOTE] + x)
  }

  lemma RemainingEnd(x: Text)
    ensures Remaining([], x) == [QUOTE] + x
  {
  }

  lemma RemainingPair(s: Text, x: Text)
    requires Paired(s)
    ensures Remaining(s, x) == [s[0], s[1]] + Remaining(s[2..], x) && s == [s[0], s[1]] + s[2..]
  {
  }

  lemma RemainingEscape(s: Text, x: Text)
    requires s != [] && !Paired(s)
    ensures Remaining(s, x) == Escape(s[0]) + Remaining(s[1..], x) && s == [s[0]] + s[1..]
  {
  }

  lemma RemainingStarts(s: Text, x: Text)
    ensures Remaining(s, x) != []
    ensures Remaining(s, x)[0] == QUOTE <==> s == []
    ensures High(Remaining(s, x)[0]) <==> Paired(s)
  {
    if s != [] { BodyStarts(s); }
  }

  lemma PairUnique(a: Text, b: Text, x: Text, y: Text)
    requires Paired(a) && Paired(b) && Remaining(a, x) == Remaining(b, y)
    ensures a[..2] == b[..2] && Remaining(a[2..], x) == Remaining(b[2..], y)
  {
    RemainingPair(a, x);
    RemainingPair(b, y);
    var left, right := Remaining(a, x), Remaining(b, y);
    assert left[0] == right[0] && left[1] == right[1] && left[2..] == right[2..];
  }

  lemma {:induction false} BodyUnique(a: Text, b: Text, x: Text, y: Text)
    requires Remaining(a, x) == Remaining(b, y)
    ensures a == b && x == y
  {
    RemainingStarts(a, x);
    RemainingStarts(b, y);
    if a == [] {
      RemainingEnd(x);
      RemainingEnd(y);
      assert Remaining([], x)[1..] == Remaining([], y)[1..];
    } else if Paired(a) {
      PairUnique(a, b, x, y);
      BodyUnique(a[2..], b[2..], x, y);
      assert a == a[..2] + a[2..] && b == b[..2] + b[2..];
    } else {
      RemainingEscape(a, x);
      RemainingEscape(b, y);
      EscapeUnique(a[0], b[0], Remaining(a[1..], x), Remaining(b[1..], y));
      BodyUnique(a[1..], b[1..], x, y);
    }
  }

  lemma QuoteUnique(a: Text, b: Text, x: Text, y: Text)
    requires Quote(a) + x == Quote(b) + y
    ensures a == b && x == y
  {
    assert (Quote(a) + x)[1..] == Remaining(a, x);
    assert (Quote(b) + y)[1..] == Remaining(b, y);
    BodyUnique(a, b, x, y);
  }

  // ----- sorted fields --------------------------------------------------------------------------------

  lemma {:induction false} LessIsStrict(a: Text, b: Text)
    ensures !(Less(a, b) && Less(b, a))
    ensures a != b <==> Less(a, b) || Less(b, a)
  {
    if a != [] && b != [] {
      LessIsStrict(a[1..], b[1..]);
      assert a == [a[0]] + a[1..] && b == [b[0]] + b[1..];
    }
  }

  lemma {:induction false} LessIsTransitive(a: Text, b: Text, c: Text)
    requires Less(a, b) && Less(b, c)
    ensures Less(a, c)
  {
    if a != [] && a[0] == b[0] == c[0] {
      LessIsTransitive(a[1..], b[1..], c[1..]);
    }
  }

  predicate DistinctKeys(pairs: seq<Entry>) {
    forall j, k :: 0 <= j < k < |pairs| ==> pairs[j].key != pairs[k].key
  }

  predicate Sorted(pairs: seq<Entry>) {
    forall j, k :: 0 <= j < k < |pairs| ==> Less(pairs[j].key, pairs[k].key)
  }

  lemma {:induction false} InsertSorts(p: Entry, sorted: seq<Entry>)
    requires Sorted(sorted) && forall k :: 0 <= k < |sorted| ==> sorted[k].key != p.key
    ensures Sorted(InsertByKey(p, sorted))
    ensures forall q :: q in InsertByKey(p, sorted) <==> q == p || q in sorted
  {
    if sorted != [] {
      assert sorted == [sorted[0]] + sorted[1..];
      if Less(sorted[0].key, p.key) {
        InsertSorts(p, sorted[1..]);
        var rest := InsertByKey(p, sorted[1..]);
        forall k | 0 <= k < |rest| ensures Less(sorted[0].key, rest[k].key) {
          assert rest[k] in rest;
          if rest[k] != p { assert rest[k] in sorted[1..]; }
        }
      } else {
        assert sorted[0].key != p.key;
        LessIsStrict(sorted[0].key, p.key);
        forall k | 0 <= k < |sorted| ensures Less(p.key, sorted[k].key) {
          if k > 0 { LessIsTransitive(p.key, sorted[0].key, sorted[k].key); }
        }
      }
    }
  }

  lemma {:induction false} SortSorts(pairs: seq<Entry>)
    requires DistinctKeys(pairs)
    ensures Sorted(SortByKey(pairs))
    ensures forall q :: q in SortByKey(pairs) <==> q in pairs
  {
    if pairs != [] {
      SortSorts(pairs[1..]);
      assert pairs == [pairs[0]] + pairs[1..];
      var rest := SortByKey(pairs[1..]);
      forall k | 0 <= k < |rest|
        ensures rest[k].key != pairs[0].key
      {
        assert rest[k] in rest;
        assert rest[k] in pairs[1..];
      }
      InsertSorts(pairs[0], rest);
    }
  }

  /** The same fields sort to the same sequence. */
  lemma {:induction false} SortedUnique(a: seq<Entry>, b: seq<Entry>)
    requires Sorted(a) && Sorted(b) && forall q :: q in a <==> q in b
    ensures a == b
  {
    assert b != [] ==> b[0] in b;
    if a != [] {
      assert a[0] in a && a[0] in b;
      assert b != [] && b[0] in b && b[0] in a;
      FirstIsLeast(a, b[0]);
      FirstIsLeast(b, a[0]);
      LessIsStrict(a[0].key, b[0].key);
      assert a == [a[0]] + a[1..] && b == [b[0]] + b[1..];
      forall q ensures q in a[1..] <==> q in b[1..] {
        if q in a[1..] { NotFirst(a, q); }
        if q in b[1..] { NotFirst(b, q); }
      }
      SortedUnique(a[1..], b[1..]);
    }
  }

  lemma FirstIsLeast(a: seq<Entry>, q: Entry)
    requires Sorted(a) && q in a
    ensures q == a[0] || Less(a[0].key, q.key)
  {
    var k :| 0 <= k < |a| && a[k] == q;
  }

  lemma NotFirst(a: seq<Entry>, q: Entry)
    requires Sorted(a) && a != [] && q in a[1..]
    ensures q in a && q != a[0]
  {
    var k :| 0 <= k < |a[1..]| && a[1..][k] == q;
    assert a[k + 1] == q;
    LessIsStrict(a[0].key, q.key);
  }

  lemma {:induction false} MapHas(pairs: seq<Named>, k: nat)
    requires k < |pairs| && forall i, j :: 0 <= i < j < |pairs| ==> pairs[i].key != pairs[j].key
    ensures pairs[k].key in MapOf(pairs) && MapOf(pairs)[pairs[k].key] == pairs[k].value
  {
    if k < |pairs| - 1 { MapHas(pairs[..|pairs| - 1], k); }
  }

  lemma {:induction false} MapOnly(pairs: seq<Named>, key: Text)
    requires key in MapOf(pairs)
    ensures exists k :: 0 <= k < |pairs| && pairs[k].key == key
  {
    if key != pairs[|pairs| - 1].key {
      MapOnly(pairs[..|pairs| - 1], key);
      var k :| 0 <= k < |pairs| - 1 && pairs[..|pairs| - 1][k].key == key;
      assert pairs[k].key == key;
    } else {
      assert pairs[|pairs| - 1].key == key;
    }
  }

  // ----- equal values encode equally -------------------------------------------------------------------

  /** A field of one object has a field of the same key and meaning in an object that means the same. */
  lemma MatchingField(a: Value, b: Value, k: nat) returns (j: nat)
    requires Encodable(a) && Encodable(b) && a.Obj? && b.Obj? && Denote(a) == Denote(b) && k < |a.fields|
    ensures j < |b.fields| && b.fields[j].key == a.fields[k].key
    ensures Denote(b.fields[j].value) == Denote(a.fields[k].value)
  {
    var da, db := DenotedFields(a), DenotedFields(b);
    assert MapOf(da) == MapOf(db);
    MapHas(da, k);
    MapOnly(db, da[k].key);
    j :| 0 <= j < |db| && db[j].key == da[k].key;
    MapHas(db, j);
  }

  lemma {:induction false} EqualValuesEncodeEqually(a: Value, b: Value)
    requires Encodable(a) && Encodable(b) && Denote(a) == Denote(b)
    ensures Encode(a) == Encode(b)
    decreases a
  {
    match a
    case Arr(elements) =>
      var da, db := Denote(a).elements, Denote(b).elements;
      forall k | 0 <= k < |elements|
        ensures Encode(a.elements[k]) == Encode(b.elements[k])
      {
        assert da[k] == db[k];
        EqualValuesEncodeEqually(a.elements[k], b.elements[k]);
      }
      assert EncodedElements(a) == EncodedElements(b);
    case Obj(fields) =>
      var ea, eb := EncodedFields(a), EncodedFields(b);
      forall k | 0 <= k < |fields| ensures ea[k] in eb {
        var j := MatchingField(a, b, k);
        EqualValuesEncodeEqually(a.fields[k].value, b.fields[j].value);
        assert eb[j] == ea[k];
      }
      forall j | 0 <= j < |b.fields| ensures eb[j] in ea {
        var k := MatchingField(b, a, j);
        EqualValuesEncodeEqually(a.fields[k].value, b.fields[j].value);
        assert ea[k] == eb[j];
      }
      SortSorts(ea);
      SortSorts(eb);
      SortedUnique(SortByKey(ea), SortByKey(eb));
    case _ =>
  }

  // ----- equal texts mean equal values --------------------------------------------------------------------

  /** What may follow a value: nothing, a comma, or a closing bracket or brace. */
  predicate Delimited(x: Text) {
    x == [] || x[0] == COMMA || x[0] == CLOSE_BRACKET || x[0] == CLOSE_BRACE
  }

  lemma EncodeStarts(v: Value)
    requires Encodable(v)
    ensures Encode(v) != []
    ensures match v
            case Null => Encode(v)[0] == 110
            case Bool(truth) => Encode(v)[0] == if truth then 116 else 102
            case Num(_) => NumberUnit(Encode(v)[0])
            case Str(_) => Encode(v)[0] == QUOTE
            case Arr(_) => Encode(v)[0] == OPEN_BRACKET
            case Obj(_) => Encode(v)[0] == OPEN_BRACE
  {
  }

  /** How many number units the text starts with. */
  function Span(text: Text): nat {
    if text == [] || !NumberUnit(text[0]) then 0 else 1 + Span(text[1..])
  }

  lemma {:induction false} SpanIsNumber(s: Text, x: Text)
    requires Delimited(x) && forall k :: 0 <= k < |s| ==> NumberUnit(s[k])
    ensures Span(s + x) == |s|
  {
    if s == [] {
      assert s + x == x;
    } else {
      assert (s + x)[1..] == s[1..] + x;
      SpanIsNumber(s[1..], x);
    }
  }

  lemma NumbersUnique(s: Text, t: Text, x: Text, y: Text)
    requires s + x == t + y && Delimited(x) && Delimited(y)
    requires forall k :: 0 <= k < |s| ==> NumberUnit(s[k])
    requires forall k :: 0 <= k < |t| ==> NumberUnit(t[k])
    ensures s == t && x == y
  {
    SpanIsNumber(s, x);
    SpanIsNumber(t, y);
    assert (s + x)[..|s|] == s && (t + y)[..|t|] == t;
    assert (s + x)[|s|..] == x && (t + y)[|t|..] == y;
  }

  /** The parts from position `i` on, their closing unit, and what follows. */
  function Listed(parts: seq<Text>, i: nat, close: Unit, x: Text): Text
    requires i <= |parts|
    decreases |parts| - i
  {
    if i == |parts| then [close] + x
    else if i + 1 == |parts| then parts[i] + ([close] + x)
    else parts[i] + ([COMMA] + Listed(parts, i + 1, close, x))
  }

  /** What follows one printed part. */
  function ListTail(parts: seq<Text>, i: nat, close: Unit, x: Text): Text
    requires i <= |parts|
  {
    if i == |parts| then [close] + x else [COMMA] + Listed(parts, i, close, x)
  }

  lemma {:induction false} JoinIsListed(parts: seq<Text>, i: nat, close: Unit, x: Text)
    requires i <= |parts|
    ensures Join(parts[i..]) + [close] + x == Listed(parts, i, close, x)
    decreases |parts| - i
  {
    if i + 1 < |parts| {
      JoinIsListed(parts, i + 1, close, x);
      assert parts[i..][1..] == parts[i + 1..];
      assert Join(parts[i..]) == parts[i] + [COMMA] + Join(parts[i + 1..]);
      assert Join(parts[i..]) + [close] + x == parts[i] + ([COMMA] + (Join(parts[i + 1..]) + [close] + x));
    }
  }

  predicate Closing(u: Unit) {
    u == CLOSE_BRACKET || u == CLOSE_BRACE
  }

  /** No part is empty or starts with a closing unit. */
  predicate Open(parts: seq<Text>) {
    forall k :: 0 <= k < |parts| ==> parts[k] != [] && !Closing(parts[k][0])
  }

  lemma ListStarts(parts: seq<Text>, i: nat, close: Unit, x: Text)
    requires i <= |parts| && Closing(close) && Open(parts)
    ensures Listed(parts, i, close, x) != []
    ensures Closing(Listed(parts, i, close, x)[0]) <==> i == |parts|
    ensures i == |parts| ==> Listed(parts, i, close, x)[1..] == x
    ensures i < |parts| ==> Listed(parts, i, close, x) == parts[i] + ListTail(parts, i + 1, close, x)
    ensures Delimited(ListTail(parts, i, close, x))
  {
  }

  /** Neither list can end while the other goes on. */
  lemma ListsEndTogether(p: seq<Text>, q: seq<Text>, i: nat, close: Unit, x: Text, y: Text)
    requires Closing(close) && Open(p) && Open(q) && i <= |p| && i <= |q|
    requires Listed(p, i, close, x) == Listed(q, i, close, y)
    ensures i == |p| <==> i == |q|
    ensures i == |p| ==> x == y
    ensures i < |p| ==> p[i] + ListTail(p, i + 1, close, x) == q[i] + ListTail(q, i + 1, close, y)
  {
    ListStarts(p, i, close, x);
    ListStarts(q, i, close, y);
  }

  /** Two tails agree only if both have ended or both go on. */
  lemma TailsAgree(p: seq<Text>, q: seq<Text>, i: nat, close: Unit, x: Text, y: Text)
    requires Closing(close) && i <= |p| && i <= |q| && ListTail(p, i, close, x) == ListTail(q, i, close, y)
    ensures i == |p| <==> i == |q|
    ensures i == |p| ==> x == y
    ensures i < |p| ==> Listed(p, i, close, x) == Listed(q, i, close, y)
  {
    var left, right := ListTail(p, i, close, x), ListTail(q, i, close, y);
    assert left[0] == right[0] && left[1..] == right[1..];
    if i == |p| && i == |q| {
      assert left[1..] == x && right[1..] == y;
    }
    if i < |p| && i < |q| {
      assert left[1..] == Listed(p, i, close, x) && right[1..] == Listed(q, i, close, y);
    }
  }

  /** Texts that start alike come from values of one constructor, and from the same literal. */
  lemma SameKind(a: Value, b: Value, x: Text, y: Text)
    requires Encodable(a) && Encodable(b) && Encode(a) + x == Encode(b) + y
    ensures a.Null? <==> b.Null?
    ensures a.Bool? <==> b.Bool?
    ensures a.Bool? && b.Bool? ==> a.truth == b.truth
    ensures a.Num? <==> b.Num?
    ensures a.Str? <==> b.Str?
    ensures a.Arr? <==> b.Arr?
    ensures a.Obj? <==> b.Obj?
  {
    EncodeStarts(a);
    EncodeStarts(b);
    assert Encode(a)[0] == (Encode(a) + x)[0] == (Encode(b) + y)[0] == Encode(b)[0];
  }

  lemma SameLengthSplit(s: Text, t: Text, x: Text, y: Text)
    requires s + x == t + y && |s| == |t|
    ensures s == t && x == y
  {
    assert (s + x)[..|s|] == s && (t + y)[..|t|] == t;
    assert (s + x)[|s|..] == x && (t + y)[|t|..] == y;
  }

  lemma ArrayOpens(v: Value, x: Text)
    requires v.Arr? && AllFinite(v)
    ensures (Encode(v) + x)[1..] == Listed(EncodedElements(v), 0, CLOSE_BRACKET, x)
  {
    JoinIsListed(EncodedElements(v), 0, CLOSE_BRACKET, x);
    assert EncodedElements(v)[0..] == EncodedElements(v);
  }

  /** The entries of an object in the order they are printed. */
  function Entries(v: Value): seq<Entry>
    requires v.Obj? && AllFinite(v)
  {
    SortByKey(EncodedFields(v))
  }

  lemma ObjectOpens(v: Value, x: Text)
    requires v.Obj? && AllFinite(v)
    ensures (Encode(v) + x)[1..] == Listed(FieldTexts(Entries(v)), 0, CLOSE_BRACE, x)
  {
    JoinIsListed(FieldTexts(Entries(v)), 0, CLOSE_BRACE, x);
    assert FieldTexts(Entries(v))[0..] == FieldTexts(Entries(v));
  }

  /** Each printed entry is a field's. */
  lemma EntryIsField(v: Value, k: nat) returns (j: nat)
    requires v.Obj? && Encodable(v) && k < |Entries(v)|
    ensures j < |v.fields| && v.fields[j].key == Entries(v)[k].key && Encode(v.fields[j].value) == Entries(v)[k].text
    ensures v.fields[j].key in MapOf(DenotedFields(v))
    ensures MapOf(DenotedFields(v))[v.fields[j].key] == Denote(v.fields[j].value)
  {
    var encoded := EncodedFields(v);
    SortSorts(encoded);
    assert Entries(v)[k] in Entries(v);
    j :| 0 <= j < |encoded| && encoded[j] == Entries(v)[k];
    MapHas(DenotedFields(v), j);
  }

  lemma FieldIsEntry(v: Value, j: nat) returns (k: nat)
    requires v.Obj? && Encodable(v) && j < |v.fields|
    ensures k < |Entries(v)| && Entries(v)[k].key == v.fields[j].key
    ensures Entries(v)[k].text == Encode(v.fields[j].value)
  {
    var encoded := EncodedFields(v);
    SortSorts(encoded);
    assert encoded[j] in encoded;
    k :| 0 <= k < |Entries(v)| && Entries(v)[k] == encoded[j];
  }

  lemma FieldOpens(e: Entry, f: Entry, x: Text, y: Text)
    requires FieldText(e) + x == FieldText(f) + y
    ensures e.key == f.key && e.text + x == f.text + y
  {
    assert FieldText(e) + x == Quote(e.key) + ([COLON] + e.text + x);
    assert FieldText(f) + y == Quote(f.key) + ([COLON] + f.text + y);
    QuoteUnique(e.key, f.key, [COLON] + e.text + x, [COLON] + f.text + y);
    assert ([COLON] + e.text + x)[1..] == e.text + x && ([COLON] + f.text + y)[1..] == f.text + y;
  }

  lemma {:induction false} TextUnique(a: Value, b: Value, x: Text, y: Text)
    requires Encodable(a) && Encodable(b) && Delimited(x) && Delimited(y)
    requires Encode(a) + x == Encode(b) + y
    ensures Denote(a) == Denote(b) && x == y
    decreases a, 1, 0
  {
    SameKind(a, b, x, y);
    match a
    case Null => SameLengthSplit(Encode(a), Encode(b), x, y);
    case Bool(_) => SameLengthSplit(Encode(a), Encode(b), x, y);
    case Num(_) => NumbersUnique(Encode(a), Encode(b), x, y);
    case Str(text) => QuoteUnique(text, b.text, x, y);
    case Arr(_) => ArraysUnique(a, b, x, y);
    case Obj(_) => ObjectsUnique(a, b, x, y);
  }

  lemma {:induction false} ArraysUnique(a: Value, b: Value, x: Text, y: Text)
    requires a.Arr? && b.Arr? && Encodable(a) && Encodable(b) && Encode(a) + x == Encode(b) + y
    ensures Denote(a) == Denote(b) && x == y
    decreases a, 0, |a.elements| + 1
  {
    ArrayOpens(a, x);
    ArrayOpens(b, y);
    ElementsStart(a);
    ElementsStart(b);
    ListsEndTogether(EncodedElements(a), EncodedElements(b), 0, CLOSE_BRACKET, x, y);
    if a.elements != [] { ElementsUnique(a, b, 0, x, y); }
    SameElementsSameMeaning(a, b);
  }

  lemma {:induction false} ObjectsUnique(a: Value, b: Value, x: Text, y: Text)
    requires a.Obj? && b.Obj? && Encodable(a) && Encodable(b) && Encode(a) + x == Encode(b) + y
    ensures Denote(a) == Denote(b) && x == y
    decreases a, 0, |Entries(a)| + 1
  {
    hide EntriesAgree;
    ObjectOpens(a, x);
    ObjectOpens(b, y);
    ListsEndTogether(FieldTexts(Entries(a)), FieldTexts(Entries(b)), 0, CLOSE_BRACE, x, y);
    if Entries(a) != [] { FieldsUnique(a, b, 0, x, y); }
    SameEntriesSameMap(a, b);
  }

  lemma ElementsStart(v: Value)
    requires v.Arr? && Encodable(v)
    ensures Open(EncodedElements(v))
  {
    forall k | 0 <= k < |v.elements|
      ensures EncodedElements(v)[k] != [] && !Closing(EncodedElements(v)[k][0])
    {
      EncodeStarts(v.elements[k]);
    }
  }

  /** The elements from position `i` on mean the same. */
  ghost predicate ElementsAgree(a: Value, b: Value, i: nat)
    requires a.Arr? && b.Arr? && Encodable(a) && Encodable(b)
  {
    |a.elements| == |b.elements| && forall k :: i <= k < |a.elements| ==> Denote(a.elements[k]) == Denote(b.elements[k])
  }

  lemma OneMoreElement(a: Value, b: Value, i: nat)
    requires a.Arr? && b.Arr? && Encodable(a) && Encodable(b) && i < |a.elements| && i < |b.elements|
    requires Denote(a.elements[i]) == Denote(b.elements[i]) && ElementsAgree(a, b, i + 1)
    ensures ElementsAgree(a, b, i)
  {
  }

  lemma {:induction false} ElementsUnique(a: Value, b: Value, i: nat, x: Text, y: Text)
    requires a.Arr? && b.Arr? && Encodable(a) && Encodable(b) && i < |a.elements| && i < |b.elements|
    requires var p, q := EncodedElements(a), EncodedElements(b);
             p[i] + ListTail(p, i + 1, CLOSE_BRACKET, x) == q[i] + ListTail(q, i + 1, CLOSE_BRACKET, y)
    ensures ElementsAgree(a, b, i) && x == y
    decreases a, 0, |a.elements| - i
  {
    var p, q := EncodedElements(a), EncodedElements(b);
    ElementsStart(a);
    ElementsStart(b);
    ListStarts(p, i + 1, CLOSE_BRACKET, x);
    ListStarts(q, i + 1, CLOSE_BRACKET, y);
    TextUnique(a.elements[i], b.elements[i], ListTail(p, i + 1, CLOSE_BRACKET, x),
      ListTail(q, i + 1, CLOSE_BRACKET, y));
    TailsAgree(p, q, i + 1, CLOSE_BRACKET, x, y);
    if i + 1 < |p| {
      ElementsUnique(a, b, i + 1, x, y);
    }
    OneMoreElement(a, b, i);
  }

  /** The two objects hold this key, and mean the same by it. */
  ghost predicate KeyAgrees(a: Value, b: Value, key: Text)
    requires a.Obj? && b.Obj? && Encodable(a) && Encodable(b)
  {
    && key in MapOf(DenotedFields(a)) && key in MapOf(DenotedFields(b))
    && MapOf(DenotedFields(a))[key] == MapOf(DenotedFields(b))[key]
  }

  /** The entries from position `i` on agree in key and in what their values mean. */
  ghost predicate EntriesAgree(a: Value, b: Value, i: nat)
    requires a.Obj? && b.Obj? && Encodable(a) && Encodable(b)
  {
    && |Entries(a)| == |Entries(b)|
    && forall k :: i <= k < |Entries(a)| ==>
       Entries(a)[k].key == Entries(b)[k].key && KeyAgrees(a, b, Entries(a)[k].key)
  }

  lemma OneMoreEntry(a: Value, b: Value, i: nat)
    requires a.Obj? && b.Obj? && Encodable(a) && Encodable(b) && i < |Entries(a)| && i < |Entries(b)|
    requires Entries(a)[i].key == Entries(b)[i].key && KeyAgrees(a, b, Entries(a)[i].key) && EntriesAgree(a, b, i + 1)
    ensures EntriesAgree(a, b, i)
  {
  }

  lemma {:induction false} EntryUnique(a: Value, b: Value, i: nat, s: Text, t: Text)
    requires a.Obj? && b.Obj? && Encodable(a) && Encodable(b) && i < |Entries(a)| && i < |Entries(b)|
    requires Delimited(s) && Delimited(t)
    requires FieldText(Entries(a)[i]) + s == FieldText(Entries(b)[i]) + t
    ensures Entries(a)[i].key == Entries(b)[i].key && KeyAgrees(a, b, Entries(a)[i].key) && s == t
    decreases a, 0, 0
  {
    FieldOpens(Entries(a)[i], Entries(b)[i], s, t);
    var j := EntryIsField(a, i);
    var k := EntryIsField(b, i);
    TextUnique(a.fields[j].value, b.fields[k].value, s, t);
  }

  lemma {:induction false} FieldsUnique(a: Value, b: Value, i: nat, x: Text, y: Text)
    requires a.Obj? && b.Obj? && Encodable(a) && Encodable(b) && i < |Entries(a)| && i < |Entries(b)|
    requires var p, q := FieldTexts(Entries(a)), FieldTexts(Entries(b));
             p[i] + ListTail(p, i + 1, CLOSE_BRACE, x) == q[i] + ListTail(q, i + 1, CLOSE_BRACE, y)
    ensures EntriesAgree(a, b, i) && x == y
    decreases a, 0, |Entries(a)| - i
  {
    var p, q := FieldTexts(Entries(a)), FieldTexts(Entries(b));
    ListStarts(p, i + 1, CLOSE_BRACE, x);
    ListStarts(q, i + 1, CLOSE_BRACE, y);
    EntryUnique(a, b, i, ListTail(p, i + 1, CLOSE_BRACE, x), ListTail(q, i + 1, CLOSE_BRACE, y));
    TailsAgree(p, q, i + 1, CLOSE_BRACE, x, y);
    if i + 1 < |p| {
      FieldsUnique(a, b, i + 1, x, y);
    }
    OneMoreEntry(a, b, i);
  }

  lemma SameElementsSameMeaning(a: Value, b: Value)
    requires a.Arr? && b.Arr? && Encodable(a) && Encodable(b) && ElementsAgree(a, b, 0)
    ensures Denote(a) == Denote(b)
  {
    assert Denote(a).elements == Denote(b).elements;
  }

  lemma SameEntriesSameMap(a: Value, b: Value)
    requires a.Obj? && b.Obj? && Encodable(a) && Encodable(b) && EntriesAgree(a, b, 0)
    ensures Denote(a) == Denote(b)
  {
    var da, db := MapOf(DenotedFields(a)), MapOf(DenotedFields(b));
    KeysAreEntries(a);
    KeysAreEntries(b);
    forall key ensures key in da <==> key in db {
    }
    forall key | key in da ensures da[key] == db[key] {
    }
    assert da == db;
  }

  lemma KeysAreEntries(v: Value)
    requires v.Obj? && Encodable(v)
    ensures forall key :: key in MapOf(DenotedFields(v)) ==>
      exists k :: 0 <= k < |Entries(v)| && Entries(v)[k].key == key
  {
    forall key | key in MapOf(DenotedFields(v))
      ensures exists k :: 0 <= k < |Entries(v)| && Entries(v)[k].key == key
    {
      MapOnly(DenotedFields(v), key);
      var j :| 0 <= j < |DenotedFields(v)| && DenotedFields(v)[j].key == key;
      var k := FieldIsEntry(v, j);
    }
  }

  // ----- the main result --------------------------------------------------------------------------------

  /**
   * Two values have the same canonical text exactly when they are equal as
   * JSON values: objects as maps, whatever order their fields were set in,
   * and -0 as 0.
   */
  lemma CanonicalIffEqual(a: Value, b: Value)
    requires Encodable(a) && Encodable(b)
    ensures Canonical(a) == Canonical(b) <==> Denote(a) == Denote(b)
  {
    if Encode(a) == Encode(b) {
      assert Encode(a) + [] == Encode(b) + [];
      TextUnique(a, b, [], []);
    }
    if Denote(a) == Denote(b) {
      EqualValuesEncodeEqually(a, b);
    }
  }
}
