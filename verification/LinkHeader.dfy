/**
 * The Link header of a delivery page (section 3 of RFC 8288): cut at the
 * commas outside `<...>` and quotes, and read for the one `next` target
 * (src/github/delivery-api.ts).
 */
module LinkHeader {
  import opened WorkTypes

  // ----- where the splitter is -------------------------------------------------------

  datatype Flags = Flags(insideUrl: bool, insideQuote: bool)

  const CLEAN: Flags := Flags(false, false)

  function Step(f: Flags, c: char): Flags {
    if c == '<' && !f.insideQuote then f.(insideUrl := true)
    else if c == '>' && !f.insideQuote then f.(insideUrl := false)
    else if c == '\"' && !f.insideUrl then f.(insideQuote := !f.insideQuote)
    else f
  }

  function After(text: string): Flags {
    if text == "" then CLEAN else Step(After(text[..|text| - 1]), text[|text| - 1])
  }

  /** The text has a comma at `i` that no bracket or quote encloses. */
  predicate OpenComma(text: string, i: nat)
    requires i < |text|
  {
    text[i] == ',' && After(text[..i]) == CLEAN
  }

  /** One link value: its brackets and quotes close, and no open comma cuts it. */
  predicate Whole(part: string) {
    After(part) == CLEAN && forall i :: 0 <= i < |part| ==> !OpenComma(part, i)
  }

  function Join(parts: seq<string>): string {
    if parts == [] then ""
    else if |parts| == 1 then parts[0]
    else Join(parts[..|parts| - 1]) + "," + parts[|parts| - 1]
  }

  ghost predicate Splits(parts: seq<string>, value: string) {
    parts != [] && (forall k :: 0 <= k < |parts| ==> Whole(parts[k])) && Join(parts) == value
  }

  // ----- facts about scanning ------------------------------------------------------------

  /** After a clean prefix, scanning starts over. */
  lemma {:induction false} AfterClean(a: string, b: string)
    requires After(a) == CLEAN
    ensures After(a + b) == After(b)
  {
    if b == "" {
      assert a + b == a;
    } else {
      AfterClean(a, b[..|b| - 1]);
      assert (a + b)[..|a + b| - 1] == a + b[..|b| - 1];
    }
  }

  lemma CommaIsClean(a: string)
    requires After(a) == CLEAN
    ensures After(a + ",") == CLEAN
  {
    assert (a + ",")[..|a|] == a;
  }

  lemma {:induction false} JoinIsClean(parts: seq<string>)
    requires forall k :: 0 <= k < |parts| ==> Whole(parts[k])
    ensures After(Join(parts)) == CLEAN
  {
    if |parts| > 1 {
      var before, last := Join(parts[..|parts| - 1]), parts[|parts| - 1];
      JoinIsClean(parts[..|parts| - 1]);
      CommaIsClean(before);
      AfterClean(before + ",", last);
    }
  }

  lemma {:induction false} JoinFront(parts: seq<string>)
    requires |parts| > 1
    ensures Join(parts) == parts[0] + "," + Join(parts[1..])
  {
    if |parts| > 2 {
      var init := parts[..|parts| - 1];
      JoinFront(init);
      assert init[1..] == parts[1..][..|parts| - 2];
      assert Join(parts) == parts[0] + "," + Join(init[1..]) + "," + parts[|parts| - 1];
      assert Join(parts[1..]) == Join(init[1..]) + "," + parts[|parts| - 1];
    }
  }

  /** A header splits into whole parts in at most one way. */
  lemma {:induction false} SplitIsUnique(a: seq<string>, b: seq<string>, value: string)
    requires Splits(a, value) && Splits(b, value)
    ensures a == b
    decreases |a|
  {
    FirstIsNoShorter(a, b, value);
    FirstIsNoShorter(b, a, value);
    assert a[0] == value[..|a[0]|] by { StartsWithFirst(a); }
    assert b[0] == value[..|b[0]|] by { StartsWithFirst(b); }
    if |a| > 1 || |b| > 1 {
      MoreThanFirst(a);
      MoreThanFirst(b);
      JoinFront(a);
      JoinFront(b);
      var rest := value[|a[0]| + 1..];
      assert Join(a[1..]) == rest && Join(b[1..]) == rest;
      SplitIsUnique(a[1..], b[1..], rest);
      assert a == [a[0]] + a[1..] && b == [b[0]] + b[1..];
    }
  }

  lemma StartsWithFirst(parts: seq<string>)
    requires parts != []
    ensures |parts[0]| <= |Join(parts)| && Join(parts)[..|parts[0]|] == parts[0]
  {
    if |parts| > 1 { JoinFront(parts); }
  }

  lemma MoreThanFirst(parts: seq<string>)
    requires parts != []
    ensures |parts| > 1 <==> |Join(parts)| > |parts[0]|
    ensures |parts| > 1 ==> Join(parts)[|parts[0]|] == ','
  {
    if |parts| > 1 { JoinFront(parts); }
  }

  lemma FirstIsNoShorter(a: seq<string>, b: seq<string>, value: string)
    requires Splits(a, value) && Splits(b, value)
    ensures |a[0]| >= |b[0]|
  {
    StartsWithFirst(a);
    StartsWithFirst(b);
    MoreThanFirst(a);
    if |a[0]| < |b[0]| { CommaInPrefix(value, |b[0]|, |a[0]|); }
  }

  lemma CommaInPrefix(value: string, n: nat, i: nat)
    requires i < n <= |value|
    ensures OpenComma(value[..n], i) <==> OpenComma(value, i)
  {
    assert value[..n][..i] == value[..i];
  }

  // ----- the splitter -----------------------------------------------------------------------

  /** Up to `index` the header is cut into whole parts and the piece that starts at `start`. */
  ghost predicate Cut(value: string, parts: seq<string>, start: nat, index: nat) {
    && start <= index <= |value|
    && (forall k :: 0 <= k < |parts| ==> Whole(parts[k]))
    && Join(parts + [value[start..index]]) == value[..index]
    && After(value[..index]) == After(value[start..index])
    && forall i :: 0 <= i < index - start ==> !OpenComma(value[start..index], i)
  }

  lemma CutOn(value: string, parts: seq<string>, start: nat, index: nat)
    requires Cut(value, parts, start, index) && index < |value|
    requires value[index] != ',' || After(value[start..index]) != CLEAN
    ensures Cut(value, parts, start, index + 1)
    ensures After(value[start..index + 1]) == Step(After(value[start..index]), value[index])
  {
    var piece, c := value[start..index], value[index];
    assert value[start..index + 1] == piece + [c] && (piece + [c])[..|piece|] == piece;
    assert value[..index + 1] == value[..index] + [c] && value[..index + 1][..index] == value[..index];
    Extend(parts, piece, c);
    PieceGrows(piece, c);
  }

  lemma CutHere(value: string, parts: seq<string>, start: nat, index: nat)
    requires Cut(value, parts, start, index) && index < |value|
    requires value[index] == ',' && After(value[start..index]) == CLEAN
    ensures Cut(value, parts + [value[start..index]], index + 1, index + 1)
  {
    var more := parts + [value[start..index]];
    assert value[index + 1..index + 1] == "";
    assert (more + [""])[..|more|] == more;
    assert value[..index + 1] == value[..index] + "," && value[..index + 1][..index] == value[..index];
  }

  /**
   * Cuts the header at its open commas. Accepted, the pieces are whole link
   * values that join back to the header; refused, nothing does, because a
   * bracket or quote is left open.
   */
  method SplitLinkHeader(value: string) returns (r: Option<seq<string>>)
    ensures r.Some? ==> Splits(r.value, value)
    ensures r.None? <==> After(value) != CLEAN
    ensures r.None? ==> forall parts :: !Splits(parts, value)
  {
    var parts: seq<string> := [];
    var start, insideUrl, insideQuote := 0, false, false;
    for index := 0 to |value|
      invariant 0 <= start && Cut(value, parts, start, index)
      invariant Flags(insideUrl, insideQuote) == After(value[start..index])
    {
      var c := value[index];
      if c == ',' && !insideUrl && !insideQuote {
        CutHere(value, parts, start, index);
      } else {
        CutOn(value, parts, start, index);
      }
      if c == '<' && !insideQuote {
        insideUrl := true;
      } else if c == '>' && !insideQuote {
        insideUrl := false;
      } else if c == '\"' && !insideUrl {
        insideQuote := !insideQuote;
      } else if c == ',' && !insideUrl && !insideQuote {
        parts := parts + [value[start..index]];
        start := index + 1;
      }
    }
    assert value[..|value|] == value && value[start..|value|] == value[start..];
    if insideUrl || insideQuote {
      OpenHeaderHasNoSplit(value);
      return None;
    }
    r := Some(parts + [value[start..]]);
  }

  lemma OpenHeaderHasNoSplit(value: string)
    requires After(value) != CLEAN
    ensures forall parts :: !Splits(parts, value)
  {
    forall parts | Splits(parts, value) ensures false {
      JoinIsClean(parts);
    }
  }

  lemma PieceGrows(piece: string, c: char)
    requires forall i :: 0 <= i < |piece| ==> !OpenComma(piece, i)
    requires c != ',' || After(piece) != CLEAN
    ensures forall i :: 0 <= i < |piece| + 1 ==> !OpenComma(piece + [c], i)
  {
    forall i | 0 <= i < |piece| + 1
      ensures !OpenComma(piece + [c], i)
    {
      assert (piece + [c])[..i] == piece[..i];
      if i < |piece| {
        assert !OpenComma(piece, i);
      } else {
        assert piece[..i] == piece;
      }
    }
  }

  /** A longer last piece makes the join longer. */
  lemma Extend(parts: seq<string>, piece: string, c: char)
    ensures Join(parts + [piece + [c]]) == Join(parts + [piece]) + [c]
  {
    assert (parts + [piece + [c]])[..|parts|] == parts == (parts + [piece])[..|parts|];
  }

  // ----- the next page ------------------------------------------------------------------------

  /** One link value read: its target, and whether `next` is among its relations. */
  datatype LinkPart = LinkPart(target: string, next: bool)

  /** How one part is read, and which targets are delivery pages; both may refuse. */
  datatype LinkReader = LinkReader(parse: string -> Option<LinkPart>, validate: string -> Option<string>)

  /** `None` refuses the header; `Some(None)` says there is no next page. */
  function NextOfParts(parts: seq<string>, reader: LinkReader): Option<Option<string>> {
    if parts == [] then Some(None)
    else
      var before := NextOfParts(parts[..|parts| - 1], reader);
      match reader.parse(parts[|parts| - 1])
      case None => None
      case Some(part) =>
        if before.None? || !part.next then before
        else if before.value.Some? then None
        else
          match reader.validate(part.target)
          case None => None
          case Some(url) => Some(Some(url))
  }

  predicate Reads(parts: seq<string>, reader: LinkReader) {
    forall k :: 0 <= k < |parts| ==> reader.parse(parts[k]).Some?
  }

  predicate NextAt(parts: seq<string>, reader: LinkReader, k: nat) {
    k < |parts| && reader.parse(parts[k]).Some? && reader.parse(parts[k]).value.next
  }

  /** Part `k` alone names the next page, and its target is the delivery page `url`. */
  ghost predicate OnlyNext(parts: seq<string>, reader: LinkReader, k: nat, url: string) {
    && NextAt(parts, reader, k)
    && reader.validate(reader.parse(parts[k]).value.target) == Some(url)
    && forall j: nat :: j != k ==> !NextAt(parts, reader, j)
  }

  lemma ReadsInit(parts: seq<string>, reader: LinkReader)
    requires parts != []
    ensures Reads(parts, reader) <==> Reads(parts[..|parts| - 1], reader) && reader.parse(parts[|parts| - 1]).Some?
    ensures forall k: nat :: k != |parts| - 1 ==>
      (NextAt(parts, reader, k) <==> NextAt(parts[..|parts| - 1], reader, k))
  {
    var init := parts[..|parts| - 1];
    if Reads(parts, reader) {
      forall k | 0 <= k < |init| ensures reader.parse(init[k]).Some? {
        assert init[k] == parts[k];
      }
    }
  }

  /** There is no next page exactly when every part reads and none names `next`. */
  lemma {:induction false} NoNextMeans(parts: seq<string>, reader: LinkReader)
    ensures NextOfParts(parts, reader) == Some(None) <==>
      Reads(parts, reader) && forall k: nat :: !NextAt(parts, reader, k)
  {
    if parts != [] {
      var init, last: nat := parts[..|parts| - 1], |parts| - 1;
      NoNextMeans(init, reader);
      ReadsInit(parts, reader);
      if Reads(init, reader) && reader.parse(parts[last]).Some? && !NextAt(parts, reader, last)
        && forall k: nat :: !NextAt(init, reader, k) {
        forall k: nat ensures !NextAt(parts, reader, k) {
          if k != last { assert !NextAt(init, reader, k); }
        }
      }
      if NextOfParts(init, reader) != Some(None) && Reads(init, reader) {
        var k: nat :| NextAt(init, reader, k);
        assert NextAt(parts, reader, k);
      }
    }
  }

  /** A next page is read exactly when every part reads, one alone names `next`, and its target is a delivery page. */
  lemma {:induction false} NextMeans(parts: seq<string>, reader: LinkReader, url: string)
    ensures NextOfParts(parts, reader) == Some(Some(url)) <==>
      Reads(parts, reader) && exists k :: OnlyNext(parts, reader, k, url)
  {
    if parts != [] {
      var init, last: nat := parts[..|parts| - 1], |parts| - 1;
      NextMeans(init, reader, url);
      NoNextMeans(init, reader);
      ReadsInit(parts, reader);
      assert !NextAt(init, reader, last);
      if NextAt(parts, reader, last) {
        assert parts == init + [parts[last]];
        LastIsNext(init, parts[last], reader, url);
      } else {
        forall k: nat ensures OnlyNext(parts, reader, k, url) <==> OnlyNext(init, reader, k, url) {
          OnlyNextInit(parts, reader, k, url);
        }
      }
    }
  }

  lemma OnlyNextInit(parts: seq<string>, reader: LinkReader, k: nat, url: string)
    requires parts != [] && !NextAt(parts, reader, |parts| - 1)
    ensures OnlyNext(parts, reader, k, url) <==> OnlyNext(parts[..|parts| - 1], reader, k, url)
  {
    var init := parts[..|parts| - 1];
    ReadsInit(parts, reader);
    forall j: nat ensures NextAt(parts, reader, j) <==> NextAt(init, reader, j) {
    }
  }

  lemma LastIsNext(init: seq<string>, last: string, reader: LinkReader, url: string)
    requires NextAt(init + [last], reader, |init|)
    ensures (exists k :: OnlyNext(init + [last], reader, k, url)) <==>
            && (forall k: nat :: !NextAt(init, reader, k))
            && reader.validate(reader.parse(last).value.target) == Some(url)
  {
    var parts := init + [last];
    assert parts[..|parts| - 1] == init;
    ReadsInit(parts, reader);
    if k :| OnlyNext(parts, reader, k, url) {
      assert k == |init|;
      forall j: nat ensures !NextAt(init, reader, j) {
        if j < |init| { assert !NextAt(parts, reader, j); }
      }
    }
    if forall k: nat :: !NextAt(init, reader, k) {
      forall j: nat | j != |init| ensures !NextAt(parts, reader, j) {
        assert !NextAt(init, reader, j);
      }
      assert reader.validate(reader.parse(last).value.target) == Some(url) ==> OnlyNext(parts, reader, |init|, url);
    }
  }

  /** The header's next page, from the one way it splits. */
  ghost function NextOf(header: Option<string>, reader: LinkReader): Option<Option<string>> {
    if header.None? then Some(None)
    else if parts :| Splits(parts, header.value) then NextOfParts(parts, reader)
    else None
  }

  lemma NextOfSplit(value: string, parts: seq<string>, reader: LinkReader)
    requires Splits(parts, value)
    ensures NextOf(Some(value), reader) == NextOfParts(parts, reader)
  {
    forall other | Splits(other, value) ensures other == parts {
      SplitIsUnique(other, parts, value);
    }
  }

  /** A refused beginning refuses the whole. */
  lemma {:induction false} RefusalStays(parts: seq<string>, reader: LinkReader, k: nat)
    requires k <= |parts| && NextOfParts(parts[..k], reader).None?
    ensures NextOfParts(parts, reader).None?
    decreases |parts| - k
  {
    if k < |parts| {
      assert parts[..k + 1][..k] == parts[..k];
      RefusalStays(parts, reader, k + 1);
    } else {
      assert parts[..k] == parts;
    }
  }

  /** The header's `next` page. */
  method NextDeliveryLink(header: Option<string>, reader: LinkReader) returns (next: Option<Option<string>>)
    ensures next == NextOf(header, reader)
  {
    if header.None? { return Some(None); }
    var parts := SplitLinkHeader(header.value);
    if parts.None? { return None; }
    NextOfSplit(header.value, parts.value, reader);
    next := ReadNext(parts.value, reader);
  }

  method ReadNext(parts: seq<string>, reader: LinkReader) returns (next: Option<Option<string>>)
    ensures next == NextOfParts(parts, reader)
  {
    var nextUrl: Option<string> := None;
    for k := 0 to |parts|
      invariant NextOfParts(parts[..k], reader) == Some(nextUrl)
    {
      assert parts[..k + 1][..k] == parts[..k];
      var part := reader.parse(parts[k]);
      if part.None? || (part.value.next && (nextUrl.Some? || reader.validate(part.value.target).None?)) {
        RefusalStays(parts, reader, k + 1);
        return None;
      }
      if part.value.next { nextUrl := reader.validate(part.value.target); }
    }
    assert parts[..|parts|] == parts;
    next := Some(nextUrl);
  }
}
