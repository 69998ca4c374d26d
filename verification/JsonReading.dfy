/** A reading of JSON texts by the grammar of RFC 8259, and that each canonical text reads as its value. */
module JsonReading {
  import opened WorkTypes
  import opened CanonicalJson

  // ----- strings ----------------------------------------------------------------------

  /** What the letter of a two-character escape stands for, section 7 of RFC 8259. */
  function Unescape(letter: Unit): Option<Unit> {
    if letter == '"' as int then Some('"' as int)
    else if letter == '\\' as int then Some('\\' as int)
    else if letter == '/' as int then Some('/' as int)
    else if letter == 'b' as int then Some(8)
    else if letter == 'f' as int then Some(12)
    else if letter == 'n' as int then Some('\n' as int)
    else if letter == 'r' as int then Some('\r' as int)
    else if letter == 't' as int then Some('\t' as int)
    else None
  }

  function HexValue(u: Unit): (d: Option<int>)
    ensures d.Some? ==> 0 <= d.value < 16
  {
    if '0' as int <= u <= '9' as int then Some(u - '0' as int)
    else if 'a' as int <= u <= 'f' as int then Some(u - 'a' as int + 10)
    else if 'A' as int <= u <= 'F' as int then Some(u - 'A' as int + 10)
    else None
  }

  /** The unit four hexadecimal digits name. */
  function HexUnit(digits: Text): Option<Unit>
    requires |digits| == 4
  {
    if HexValue(digits[0]).None? || HexValue(digits[1]).None? || HexValue(digits[2]).None? || HexValue(digits[3]).None?
    then None
    else
      Some(HexValue(digits[0]).value * 4096 + HexValue(digits[1]).value * 256 + HexValue(digits[2]).value * 16
        + HexValue(digits[3]).value)
  }

  /** The text between the quotes, read. */
  function ReadString(body: Text): Option<Text> {
    if body == [] then Some([])
    else if body[0] == '\\' as int then
      if |body| >= 2 && Unescape(body[1]).Some? then Before(Unescape(body[1]), ReadString(body[2..]))
      else if |body| >= 6 && body[1] == 'u' as int then Before(HexUnit(body[2..6]), ReadString(body[6..]))
      else None
    else if body[0] < 0x20 || body[0] == '"' as int then None
    else Before(Some(body[0]), ReadString(body[1..]))
  }

  function Before(first: Option<Unit>, rest: Option<Text>): Option<Text> {
    if first.Some? && rest.Some? then Some([first.value] + rest.value) else None
  }

  lemma DigitReads(d: int)
    requires 0 <= d < 16
    ensures HexValue(HexDigit(d)) == Some(d)
  {
  }

  lemma HexReads(u: Unit)
    ensures HexUnit(Hex4(u)) == Some(u)
  {
    hide HexValue, HexDigit;
    FourDigits(u);
    DigitReads(u / 4096);
    DigitReads(u / 256 % 16);
    DigitReads(u / 16 % 16);
    DigitReads(u % 16);
  }

  lemma PlainReads(u: Unit, rest: Text)
    requires u >= 0x20 && u != QUOTE && u != BACKSLASH
    ensures ReadString([u] + rest) == Before(Some(u), ReadString(rest))
  {
    assert ([u] + rest)[1..] == rest;
  }

  lemma ShortReads(u: Unit, rest: Text)
    requires ShortEscape(u) != 0
    ensures ReadString([BACKSLASH, ShortEscape(u)] + rest) == Before(Some(u), ReadString(rest))
  {
    var text := [BACKSLASH, ShortEscape(u)] + rest;
    assert text[1] == ShortEscape(u) && text[2..] == rest;
    assert Unescape(ShortEscape(u)) == Some(u);
  }

  lemma LongReads(digits: Text, rest: Text)
    requires |digits| == 4
    ensures ReadString([BACKSLASH, 117] + digits + rest) == Before(HexUnit(digits), ReadString(rest))
  {
    hide HexUnit, Before;
    var text := [BACKSLASH, 117] + digits + rest;
    assert text[1] == 117 && text[2..6] == digits && text[6..] == rest;
    assert Unescape(117).None?;
  }

  lemma EscapeReads(u: Unit, rest: Text)
    ensures ReadString(Escape(u) + rest) == Before(Some(u), ReadString(rest))
  {
    hide ReadString, HexUnit, Before;
    if ShortEscape(u) != 0 {
      ShortReads(u, rest);
    } else if u < 32 || High(u) || Low(u) {
      HexReads(u);
      LongReads(Hex4(u), rest);
    } else {
      PlainReads(u, rest);
    }
  }

  lemma PairReads(high: Unit, low: Unit, rest: Text)
    requires High(high) && Low(low)
    ensures ReadString([high, low] + rest) == Before(Some(high), Before(Some(low), ReadString(rest)))
  {
    var text := [high, low] + rest;
    assert text[1..] == [low] + rest && text[1..][1..] == rest;
  }

  /** A quoted string reads as itself. */
  lemma {:induction false} BodyReads(s: Text)
    ensures ReadString(Body(s)) == Some(s)
  {
    if Paired(s) {
      BodyReads(s[2..]);
      PairReads(s[0], s[1], Body(s[2..]));
      assert s == [s[0]] + ([s[1]] + s[2..]);
    } else if s != [] {
      BodyReads(s[1..]);
      EscapeReads(s[0], Body(s[1..]));
      assert s == [s[0]] + s[1..];
    }
  }

  /** Every half of a surrogate pair stands with its other half. */
  predicate WholePairs(t: Text) {
    t == [] ||
    if 0xD800 <= t[0] <= 0xDFFF then t[0] < 0xDC00 && |t| > 1 && 0xDC00 <= t[1] <= 0xDFFF && WholePairs(t[2..])
    else WholePairs(t[1..])
  }

  lemma {:induction false} PlainThenPairs(plain: Text, rest: Text)
    requires WholePairs(rest) && forall k :: 0 <= k < |plain| ==> !(0xD800 <= plain[k] <= 0xDFFF)
    ensures WholePairs(plain + rest)
  {
    if plain == [] {
      assert plain + rest == rest;
    } else {
      PlainThenPairs(plain[1..], rest);
      assert (plain + rest)[1..] == plain[1..] + rest;
    }
  }

  /** Units an escape of one unit takes: two for the seven with a letter, six for other controls and lone halves. */
  function UnitsFor(u: Unit): nat {
    if u in {8, 9, 10, 12, 13, 34, 92} then 2 else if u < 0x20 || 0xD800 <= u <= 0xDFFF then 6 else 1
  }

  function UnitsForAll(s: Text): nat {
    if s == [] then 0
    else if |s| > 1 && 0xD800 <= s[0] < 0xDC00 && 0xDC00 <= s[1] <= 0xDFFF then 2 + UnitsForAll(s[2..])
    else UnitsFor(s[0]) + UnitsForAll(s[1..])
  }

  predicate LowerHex(u: Unit) {
    '0' as int <= u <= '9' as int || 'a' as int <= u <= 'f' as int
  }

  /** One escape is as short as it may be, in lower case, and plain. */
  lemma EscapeIsPlain(u: Unit)
    ensures |Escape(u)| == UnitsFor(u)
    ensures forall k :: 0 <= k < |Escape(u)| ==> !(0xD800 <= Escape(u)[k] <= 0xDFFF)
    ensures |Escape(u)| == 6 ==> forall k :: 2 <= k < 6 ==> LowerHex(Escape(u)[k])
  {
  }

  /** The text of a string is well-formed UTF-16, whatever the string, and escapes only what it must. */
  lemma {:induction false} BodyIsWellFormed(s: Text)
    ensures WholePairs(Body(s)) && |Body(s)| == UnitsForAll(s)
  {
    if Paired(s) {
      BodyIsWellFormed(s[2..]);
      assert Body(s)[2..] == Body(s[2..]);
    } else if s != [] {
      BodyIsWellFormed(s[1..]);
      EscapeIsPlain(s[0]);
      PlainThenPairs(Escape(s[0]), Body(s[1..]));
    }
  }

  // ----- values -------------------------------------------------------------------------

  predicate Spells(t: Text, word: string) {
    |t| == |word| && forall k :: 0 <= k < |word| ==> t[k] == word[k] as int
  }

  /** The text of a string value: quotes around what reads as the string. */
  predicate ReadsAsString(t: Text, s: Text) {
    |t| >= 2 && t[0] == t[|t| - 1] == '"' as int && ReadString(t[1..|t| - 1]) == Some(s)
  }

  /** The parts between the two brackets, a comma between each two. */
  function Enclosed(open: char, parts: seq<Text>, close: char): Text
    requires open as int < 0x1_0000 && close as int < 0x1_0000
  {
    [open as int] + Commas(parts) + [close as int]
  }

  function Commas(parts: seq<Text>): Text {
    if parts == [] then []
    else if |parts| == 1 then parts[0]
    else Commas(parts[..|parts| - 1]) + [',' as int] + parts[|parts| - 1]
  }

  /** The first key comes before the second: at the first unit they differ in, or by ending there. */
  predicate KeyBefore(a: Text, b: Text) {
    exists i :: 0 <= i <= |a| && i < |b| && a[..i] == b[..i] && (i == |a| || a[i] < b[i])
  }

  /** A member of an object: the texts of its key and of its value. */
  datatype ObjectMember = ObjectMember(key: Text, keyText: Text, valueText: Text)

  function MemberText(m: ObjectMember): Text {
    m.keyText + [':' as int] + m.valueText
  }

  /** The text is an object of these members, in the order of their keys. */
  predicate Printed(t: Text, members: seq<ObjectMember>) {
    && t == Enclosed('{', seq(|members|, k requires 0 <= k < |members| => MemberText(members[k])), '}')
    && (forall j, k :: 0 <= j < k < |members| ==> KeyBefore(members[j].key, members[k].key))
    && (forall k :: 0 <= k < |members| ==> ReadsAsString(members[k].keyText, members[k].key))
  }

  /** The text is the value's: no blanks, and the members of an object in the order of their keys. */
  ghost predicate ReadsAs(t: Text, v: Value)
    decreases v, 0
  {
    match v
    case Null => Spells(t, "null")
    case Bool(truth) => Spells(t, if truth then "true" else "false")
    case Num(NotFinite) => false
    case Num(NegativeZero) => Spells(t, "0")
    case Num(Finite(text)) => t == text
    case Str(text) => ReadsAsString(t, text)
    case Arr(elements) =>
      exists parts: seq<Text> ::
        && |parts| == |elements| && t == Enclosed('[', parts, ']')
        && forall k :: 0 <= k < |elements| ==> ReadsAs(parts[k], elements[k])
    case Obj(fields) =>
      exists members: seq<ObjectMember> ::
        && |members| == |fields| && Printed(t, members)
        && forall j :: 0 <= j < |fields| ==> HasMember(members, fields[j].key, fields[j].value)
  }

  /** One of the members is the key's, with a text of the value. */
  ghost predicate HasMember(members: seq<ObjectMember>, key: Text, value: Value)
    decreases value, 1
  {
    exists k :: 0 <= k < |members| && members[k].key == key && ReadsAs(members[k].valueText, value)
  }

  lemma {:induction false} JoinsAreCommas(parts: seq<Text>)
    ensures Join(parts) == Commas(parts)
  {
    if |parts| > 1 {
      var front, last := parts[..|parts| - 1], parts[|parts| - 1];
      JoinsAreCommas(front);
      JoinOneMore(front, last);
      assert parts == front + [last];
    }
  }

  lemma {:induction false} JoinOneMore(front: seq<Text>, last: Text)
    requires front != []
    ensures Join(front + [last]) == Join(front) + [COMMA] + last
  {
    if |front| > 1 {
      JoinOneMore(front[1..], last);
      assert (front + [last])[1..] == front[1..] + [last];
    } else {
      assert (front + [last])[1..] == [last];
    }
  }

  lemma QuoteReads(s: Text)
    ensures ReadsAsString(Quote(s), s)
  {
    BodyReads(s);
    assert Quote(s)[1..|Quote(s)| - 1] == Body(s);
  }

  lemma {:induction false} LessIsBefore(a: Text, b: Text)
    requires Less(a, b)
    ensures KeyBefore(a, b)
  {
    if a == [] || a[0] < b[0] {
      assert a[..0] == b[..0];
    } else {
      LessIsBefore(a[1..], b[1..]);
      var i :| 0 <= i <= |a[1..]| && i < |b[1..]| && a[1..][..i] == b[1..][..i]
               && (i == |a[1..]| || a[1..][i] < b[1..][i]);
      assert a[..i + 1] == [a[0]] + a[1..][..i] && b[..i + 1] == [b[0]] + b[1..][..i];
    }
  }

  function MemberOf(e: Entry): ObjectMember {
    ObjectMember(e.key, Quote(e.key), e.text)
  }

  function MembersOf(entries: seq<Entry>): seq<ObjectMember> {
    seq(|entries|, k requires 0 <= k < |entries| => MemberOf(entries[k]))
  }

  lemma {:induction false} InsertCounts(p: Entry, sorted: seq<Entry>)
    ensures |InsertByKey(p, sorted)| == |sorted| + 1
  {
    if sorted != [] { InsertCounts(p, sorted[1..]); }
  }

  lemma {:induction false} SortCounts(pairs: seq<Entry>)
    ensures |SortByKey(pairs)| == |pairs|
  {
    if pairs != [] {
      SortCounts(pairs[1..]);
      InsertCounts(pairs[0], SortByKey(pairs[1..]));
    }
  }

  /** The entries of an object are its members in the order of their keys. */
  lemma EntriesAreMembers(v: Value)
    requires v.Obj? && Encodable(v)
    ensures |MembersOf(Entries(v))| == |v.fields| && Printed(Encode(v), MembersOf(Entries(v)))
  {
    var encoded, entries := EncodedFields(v), Entries(v);
    var members := MembersOf(entries);
    SortSorts(encoded);
    SortCounts(encoded);
    forall j, k | 0 <= j < k < |members| ensures KeyBefore(members[j].key, members[k].key) {
      LessIsBefore(entries[j].key, entries[k].key);
    }
    forall k | 0 <= k < |members| ensures ReadsAsString(members[k].keyText, members[k].key) {
      QuoteReads(entries[k].key);
    }
    var texts := seq(|members|, k requires 0 <= k < |members| => MemberText(members[k]));
    assert texts == FieldTexts(entries);
    JoinsAreCommas(texts);
  }

  lemma ArrayReads(v: Value)
    requires v.Arr? && Encodable(v)
    requires forall k :: 0 <= k < |v.elements| ==> ReadsAs(Encode(v.elements[k]), v.elements[k])
    ensures ReadsAs(Encode(v), v)
  {
    hide Commas, Join;
    var parts := EncodedElements(v);
    JoinsAreCommas(parts);
    assert Encode(v) == Enclosed('[', parts, ']');
    assert forall k :: 0 <= k < |v.elements| ==> parts[k] == Encode(v.elements[k]);
  }

  lemma FieldReads(v: Value, j: nat)
    requires v.Obj? && Encodable(v) && j < |v.fields| && ReadsAs(Encode(v.fields[j].value), v.fields[j].value)
    ensures HasMember(MembersOf(Entries(v)), v.fields[j].key, v.fields[j].value)
  {
    hide ReadsAs, Encode, Entries;
    var k := FieldIsEntry(v, j);
    assert MembersOf(Entries(v))[k] == MemberOf(Entries(v)[k]);
  }

  lemma ObjectReads(v: Value)
    requires v.Obj? && Encodable(v)
    requires forall j :: 0 <= j < |v.fields| ==> ReadsAs(Encode(v.fields[j].value), v.fields[j].value)
    ensures ReadsAs(Encode(v), v)
  {
    hide Encode, Entries, MembersOf, Printed, HasMember;
    var members := MembersOf(Entries(v));
    EntriesAreMembers(v);
    forall j | 0 <= j < |v.fields|
      ensures HasMember(members, v.fields[j].key, v.fields[j].value)
    {
      FieldReads(v, j);
    }
  }

  /**
   * The canonical text of a value reads, by the grammar of RFC 8259, as that
   * value: with no blanks, and with the members of every object in code-unit
   * order of their keys.
   */
  lemma {:induction false} CanonicalTextReads(v: Value)
    requires Encodable(v)
    ensures ReadsAs(Encode(v), v)
    decreases v
  {
    match v
    case Str(text) => QuoteReads(text);
    case Arr(elements) =>
      forall k | 0 <= k < |elements| ensures ReadsAs(Encode(elements[k]), elements[k]) {
        CanonicalTextReads(elements[k]);
      }
      ArrayReads(v);
    case Obj(fields) =>
      forall j | 0 <= j < |fields| ensures ReadsAs(Encode(fields[j].value), fields[j].value) {
        CanonicalTextReads(fields[j].value);
      }
      ObjectReads(v);
    case _ =>
  }
}
