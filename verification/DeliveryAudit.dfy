/**
 * The audit of webhook deliveries: pages followed from the first URL to a page
 * without a next one (src/github/delivery-api.ts).
 */
module DeliveryAudit {
  import opened WorkTypes
  import opened LinkHeader

  const MAXIMUM_PAGES := 100
  const MAXIMUM_DELIVERIES := 10_000
  const PAGE_SIZE := 100

  /** A delivery's id, and whether it is a pull-request delivery the audit reports. */
  datatype Delivery = Delivery(id: string, pullRequest: bool)

  /** One fetch: no answer, a refusal, a body that is no JSON array, or a page, whose malformed items are `None`. */
  datatype Answer =
    | NoAnswer
    | NotServed(retryAt: Option<int>)
    | NotAPage
    | Page(items: seq<Option<Delivery>>, link: Option<string>)

  /** A URL is fetched at most once, so what GitHub answers is a function of it. */
  datatype Source = Source(fetch: string -> Answer, reader: LinkReader)

  datatype Cause = RequestBudgetExhausted | PaginationIncomplete | SourceUnavailable | NormalizationFailed

  datatype PageProof = PageProof(url: string, itemCount: nat, next: Option<string>)

  datatype Audit =
    | Complete(pageCount: nat, deliveryCount: nat, deliveries: seq<Delivery>)
    | Incomplete(cause: Cause, pageCount: nat, deliveryCount: nat)

  // ----- what a complete audit covers ---------------------------------------------------

  /** The page can be read in full. */
  ghost predicate Readable(source: Source, url: string) {
    var answer := source.fetch(url);
    && answer.Page?
    && |answer.items| <= PAGE_SIZE
    && (forall k :: 0 <= k < |answer.items| ==> answer.items[k].Some?)
    && NextOf(answer.link, source.reader).Some?
  }

  function Values(items: seq<Option<Delivery>>): seq<Delivery>
    requires forall k :: 0 <= k < |items| ==> items[k].Some?
  {
    seq(|items|, k requires 0 <= k < |items| => items[k].value)
  }

  /** The deliveries of the pages, in order. */
  ghost function Deliveries(source: Source, urls: seq<string>): seq<Delivery>
    requires forall k :: 0 <= k < |urls| ==> Readable(source, urls[k])
  {
    if urls == [] then []
    else
      assert Readable(source, urls[|urls| - 1]);
      Deliveries(source, urls[..|urls| - 1]) + Values(source.fetch(urls[|urls| - 1]).items)
  }

  predicate DistinctIds(deliveries: seq<Delivery>) {
    forall j, k :: 0 <= j < k < |deliveries| ==> deliveries[j].id != deliveries[k].id
  }

  /** Readable pages from the first URL, each naming the one after it, without a repeated URL or delivery id. */
  ghost predicate Chained(source: Source, first: string, urls: seq<string>) {
    && |urls| <= MAXIMUM_PAGES
    && (urls != [] ==> urls[0] == first)
    && (forall k :: 0 <= k < |urls| ==> Readable(source, urls[k]))
    && (forall k :: 0 <= k < |urls| - 1 ==>
          NextOf(source.fetch(urls[k]).link, source.reader) == Some(Some(urls[k + 1])))
    && (forall j, k :: 0 <= j < k < |urls| ==> urls[j] != urls[k])
    && DistinctIds(Deliveries(source, urls))
  }

  /** A chain that ends at a page without a next one. */
  ghost predicate Covers(source: Source, first: string, urls: seq<string>) {
    && urls != []
    && Chained(source, first, urls)
    && NextOf(source.fetch(urls[|urls| - 1]).link, source.reader) == Some(None)
  }

  /** The URL a chain arrives at: the first, or what its last page names. */
  ghost function Arrives(source: Source, first: string, urls: seq<string>): Option<string>
    requires Chained(source, first, urls)
  {
    if urls == [] then Some(first) else NextOf(source.fetch(urls[|urls| - 1]).link, source.reader).value
  }

  lemma {:induction false} DeliveriesExtend(source: Source, urls: seq<string>, more: seq<string>)
    requires urls <= more && forall k :: 0 <= k < |more| ==> Readable(source, more[k])
    ensures Deliveries(source, urls) <= Deliveries(source, more)
    decreases |more|
  {
    if |urls| < |more| {
      DeliveriesExtend(source, urls, more[..|more| - 1]);
    } else {
      assert urls == more;
    }
  }

  /** Every covering chain goes through every chain. */
  lemma {:induction false} ChainIsPrefix(source: Source, first: string, urls: seq<string>, all: seq<string>)
    requires Chained(source, first, urls) && Covers(source, first, all)
    ensures urls <= all
    decreases |urls|
  {
    if urls != [] {
      var n := |urls| - 1;
      ChainCut(source, first, urls, n);
      ChainIsPrefix(source, first, urls[..n], all);
      if n > 0 {
        assert urls[..n][n - 1] == urls[n - 1] == all[n - 1];
        assert NextOf(source.fetch(urls[n - 1]).link, source.reader) == Some(Some(urls[n - 1 + 1]));
        if n < |all| {
          assert NextOf(source.fetch(all[n - 1]).link, source.reader) == Some(Some(all[n - 1 + 1]));
        }
      }
    }
  }

  lemma ChainCut(source: Source, first: string, urls: seq<string>, n: nat)
    requires Chained(source, first, urls) && n <= |urls|
    ensures Chained(source, first, urls[..n])
  {
    DeliveriesExtend(source, urls[..n], urls);
    var some, all := Deliveries(source, urls[..n]), Deliveries(source, urls);
    assert forall k :: 0 <= k < |some| ==> some[k] == all[k];
    forall k | 0 <= k < n - 1
      ensures NextOf(source.fetch(urls[..n][k]).link, source.reader) == Some(Some(urls[..n][k + 1]))
    {
      assert urls[..n][k] == urls[k] && urls[..n][k + 1] == urls[k + 1];
    }
  }

  /** At most one chain covers the source. */
  lemma CoverIsUnique(source: Source, first: string, a: seq<string>, b: seq<string>)
    requires Covers(source, first, a) && Covers(source, first, b)
    ensures a == b
  {
    ChainIsPrefix(source, first, a, b);
    ChainIsPrefix(source, first, b, a);
  }

  /** A covering chain goes on to the URL a chain arrives at, with a page that repeats nothing. */
  lemma CoverGoesOn(source: Source, first: string, urls: seq<string>, next: string, all: seq<string>)
    requires Chained(source, first, urls) && Arrives(source, first, urls) == Some(next) && Covers(source, first, all)
    ensures |urls| < |all| && all[|urls|] == next && next !in urls && Readable(source, next)
    ensures Chained(source, first, urls + [next])
  {
    ChainIsPrefix(source, first, urls, all);
    var n := |urls|;
    assert n == |all| ==> urls == all;
    if n < |all| {
      if n > 0 {
        assert all[n - 1] == urls[n - 1];
        assert NextOf(source.fetch(all[n - 1]).link, source.reader) == Some(Some(all[n - 1 + 1]));
      }
      assert all[..n + 1] == urls + [next];
      ChainCut(source, first, all, n + 1);
    }
  }

  lemma NoCover(source: Source, first: string, urls: seq<string>, next: string)
    requires Chained(source, first, urls) && Arrives(source, first, urls) == Some(next)
    requires |urls| >= MAXIMUM_PAGES || next in urls || !Chained(source, first, urls + [next])
    ensures forall all :: !Covers(source, first, all)
  {
    forall all | Covers(source, first, all) ensures false {
      CoverGoesOn(source, first, urls, next, all);
    }
  }

  // ----- reading one page --------------------------------------------------------------------

  function Ids(deliveries: seq<Delivery>): set<string> {
    set k | 0 <= k < |deliveries| :: deliveries[k].id
  }

  function PullRequests(deliveries: seq<Delivery>): seq<Delivery> {
    if deliveries == [] then []
    else
      var last := deliveries[|deliveries| - 1];
      PullRequests(deliveries[..|deliveries| - 1]) + if last.pullRequest then [last] else []
  }

  lemma {:induction false} DistinctIdsCount(deliveries: seq<Delivery>)
    requires DistinctIds(deliveries)
    ensures |Ids(deliveries)| == |deliveries|
  {
    if deliveries != [] {
      var rest, last := deliveries[..|deliveries| - 1], deliveries[|deliveries| - 1];
      DistinctIdsCount(rest);
      assert last.id !in Ids(rest);
      assert Ids(deliveries) == Ids(rest) + {last.id};
    }
  }

  lemma OneMore(deliveries: seq<Delivery>, d: Delivery)
    ensures Ids(deliveries + [d]) == Ids(deliveries) + {d.id}
    ensures PullRequests(deliveries + [d]) == PullRequests(deliveries) + if d.pullRequest then [d] else []
    ensures DistinctIds(deliveries + [d]) <==> DistinctIds(deliveries) && d.id !in Ids(deliveries)
  {
    var more := deliveries + [d];
    assert more[..|deliveries|] == deliveries;
    forall id ensures id in Ids(more) <==> id in Ids(deliveries) + {d.id} {
      if id in Ids(deliveries) {
        var k :| 0 <= k < |deliveries| && deliveries[k].id == id;
        assert more[k].id == id;
      }
      if id == d.id { assert more[|deliveries|].id == id; }
    }
    if DistinctIds(more) {
      forall j, k | 0 <= j < k < |deliveries| ensures deliveries[j].id != deliveries[k].id {
        assert more[j].id != more[k].id;
      }
      forall k | 0 <= k < |deliveries| ensures deliveries[k].id != d.id {
        assert more[k].id != more[|deliveries|].id;
      }
    }
  }

  /** Takes in a page's items after those already known; stops at a malformed or repeated one. */
  method TakeItems(items: seq<Option<Delivery>>, ghost known: seq<Delivery>, knownIds: set<string>,
    found: seq<Delivery>)
    returns (failure: Option<Cause>, ids: set<string>, reported: seq<Delivery>)
    requires DistinctIds(known) && knownIds == Ids(known) && found == PullRequests(known)
    ensures failure.None? <==> (forall k :: 0 <= k < |items| ==> items[k].Some?) && DistinctIds(known + Values(items))
    ensures failure.None? ==> ids == Ids(known + Values(items)) && reported == PullRequests(known + Values(items))
    ensures knownIds <= ids
  {
    ids, reported := knownIds, found;
    assert known + Values(items[..0]) == known;
    for k := 0 to |items|
      invariant forall j :: 0 <= j < k ==> items[j].Some?
      invariant Taken(known + Values(items[..k]), ids, reported) && knownIds <= ids
    {
      if items[k].None? { return Some(NormalizationFailed), ids, reported; }
      var d := items[k].value;
      NextItem(items, k, known);
      if d.id in ids {
        RepeatStays(items, k, known);
        return Some(PaginationIncomplete), ids, reported;
      }
      ids := ids + {d.id};
      if d.pullRequest { reported := reported + [d]; }
    }
    assert items[..|items|] == items;
    failure := None;
  }

  predicate Taken(deliveries: seq<Delivery>, ids: set<string>, reported: seq<Delivery>) {
    DistinctIds(deliveries) && ids == Ids(deliveries) && reported == PullRequests(deliveries)
  }

  lemma NextItem(items: seq<Option<Delivery>>, k: nat, known: seq<Delivery>)
    requires k < |items| && forall j :: 0 <= j <= k ==> items[j].Some?
    ensures var before, after, d := known + Values(items[..k]), known + Values(items[..k + 1]), items[k].value;
            && Ids(after) == Ids(before) + {d.id}
            && PullRequests(after) == PullRequests(before) + (if d.pullRequest then [d] else [])
            && (DistinctIds(after) <==> DistinctIds(before) && d.id !in Ids(before))
  {
    assert Values(items[..k + 1]) == Values(items[..k]) + [items[k].value];
    assert known + Values(items[..k + 1]) == known + Values(items[..k]) + [items[k].value];
    OneMore(known + Values(items[..k]), items[k].value);
  }

  /** A repeated id among the first items is one among all of them. */
  lemma RepeatStays(items: seq<Option<Delivery>>, k: nat, known: seq<Delivery>)
    requires k < |items| && forall j :: 0 <= j <= k ==> items[j].Some?
    requires !DistinctIds(known + Values(items[..k + 1]))
    ensures (forall j :: 0 <= j < |items| ==> items[j].Some?) ==> !DistinctIds(known + Values(items))
  {
    if forall j :: 0 <= j < |items| ==> items[j].Some? {
      var some, all := known + Values(items[..k + 1]), known + Values(items);
      var a, b :| 0 <= a < b < |some| && some[a].id == some[b].id;
      assert all[a] == some[a] && all[b] == some[b];
    }
  }

  // ----- the audit --------------------------------------------------------------------------------

  function Urls(proofs: seq<PageProof>): seq<string> {
    seq(|proofs|, k requires 0 <= k < |proofs| => proofs[k].url)
  }

  function ItemSum(proofs: seq<PageProof>): nat {
    if proofs == [] then 0 else ItemSum(proofs[..|proofs| - 1]) + proofs[|proofs| - 1].itemCount
  }

  /** The audit's progress: the pages proved so far, what they hold, and where they lead. */
  ghost predicate Progress(source: Source, first: string, proofs: seq<PageProof>, ids: set<string>,
    found: seq<Delivery>, next: Option<string>)
  {
    && Chained(source, first, Urls(proofs))
    && Arrives(source, first, Urls(proofs)) == next
    && var known := Deliveries(source, Urls(proofs));
       ids == Ids(known) && found == PullRequests(known) && |known| == ItemSum(proofs)
  }

  lemma PageTaken(source: Source, first: string, proofs: seq<PageProof>, ids: set<string>, found: seq<Delivery>,
    url: string, proof: PageProof, moreIds: set<string>, moreFound: seq<Delivery>)
    requires Progress(source, first, proofs, ids, found, Some(url)) && |proofs| < MAXIMUM_PAGES && url !in Urls(proofs)
    requires Readable(source, url)
    requires var known := Deliveries(source, Urls(proofs)) + Values(source.fetch(url).items);
             DistinctIds(known) && moreIds == Ids(known) && moreFound == PullRequests(known)
    requires proof == PageProof(url, |source.fetch(url).items|, NextOf(source.fetch(url).link, source.reader).value)
    ensures Progress(source, first, proofs + [proof], moreIds, moreFound, proof.next)
  {
    ChainExtends(source, first, Urls(proofs), url);
    assert Urls(proofs + [proof]) == Urls(proofs) + [url] && (Urls(proofs) + [url])[..|proofs|] == Urls(proofs);
    assert (proofs + [proof])[..|proofs|] == proofs;
  }

  lemma ChainExtends(source: Source, first: string, urls: seq<string>, url: string)
    requires Chained(source, first, urls) && Arrives(source, first, urls) == Some(url)
    requires |urls| < MAXIMUM_PAGES && url !in urls && Readable(source, url)
    requires DistinctIds(Deliveries(source, urls) + Values(source.fetch(url).items))
    ensures Chained(source, first, urls + [url])
    ensures Deliveries(source, urls + [url]) == Deliveries(source, urls) + Values(source.fetch(url).items)
  {
    var more := urls + [url];
    assert more[..|urls|] == urls;
    forall k | 0 <= k < |more| - 1
      ensures NextOf(source.fetch(more[k]).link, source.reader) == Some(Some(more[k + 1]))
    {
      if k < |urls| - 1 {
        assert NextOf(source.fetch(urls[k]).link, source.reader) == Some(Some(urls[k + 1]));
      }
    }
  }

  /** A chain that arrives nowhere covers the source. */
  lemma Finished(source: Source, first: string, proofs: seq<PageProof>, ids: set<string>, found: seq<Delivery>)
    requires Progress(source, first, proofs, ids, found, None)
    ensures Covers(source, first, Urls(proofs))
    ensures |ids| == |Deliveries(source, Urls(proofs))| == ItemSum(proofs)
    ensures found == PullRequests(Deliveries(source, Urls(proofs)))
  {
    DistinctIdsCount(Deliveries(source, Urls(proofs)));
  }

  /** A page that cannot be read, or that repeats a delivery, ends every chain. */
  lemma BadPage(source: Source, first: string, urls: seq<string>, url: string)
    requires Chained(source, first, urls) && Arrives(source, first, urls) == Some(url)
    requires !Readable(source, url) || !DistinctIds(Deliveries(source, urls) + Values(source.fetch(url).items))
    ensures forall all :: !Covers(source, first, all)
  {
    assert (urls + [url])[..|urls|] == urls;
    forall all | Covers(source, first, all) ensures false {
      CoverGoesOn(source, first, urls, url, all);
    }
  }

  /**
   * Follows the pages. The audit is complete exactly when some chain of at
   * most a hundred distinct readable pages, with no delivery id twice, leads
   * from the first URL to a page without a next one; it then reports that
   * chain, and counts the deliveries on it. The delivery limit is never what
   * stops it.
   */
  method AuditDeliveries(source: Source, first: string) returns (result: Audit, proofs: seq<PageProof>)
    ensures result.Complete? <==> exists urls :: Covers(source, first, urls)
    ensures result.Complete? ==>
              && Covers(source, first, Urls(proofs))
              && result.pageCount == |proofs| <= MAXIMUM_PAGES
              && var known := Deliveries(source, Urls(proofs));
                 result.deliveryCount == |known| == ItemSum(proofs) && result.deliveries == PullRequests(known)
    ensures result.Incomplete? ==> Chained(source, first, Urls(proofs)) && result.pageCount == |proofs|
  {
    var failure, ids, deliveries;
    failure, proofs, ids, deliveries := FollowPages(source, first);
    if failure.Some? {
      return Incomplete(failure.value, |proofs|, |ids|), proofs;
    }
    Finished(source, first, proofs, ids, deliveries);
    result := Complete(|proofs|, |ids|, deliveries);
  }

  method FollowPages(source: Source, first: string)
    returns (failure: Option<Cause>, proofs: seq<PageProof>, ids: set<string>, deliveries: seq<Delivery>)
    ensures failure.None? ==> Progress(source, first, proofs, ids, deliveries, None)
    ensures failure.Some? ==> Chained(source, first, Urls(proofs)) && forall all :: !Covers(source, first, all)
  {
    proofs, ids, deliveries := [], {}, [];
    var visited: set<string> := {};
    var nextUrl := Some(first);
    assert Urls(proofs) == [];
    while nextUrl.Some?
      invariant Progress(source, first, proofs, ids, deliveries, nextUrl)
      invariant forall u :: u in visited <==> u in Urls(proofs)
      decreases MAXIMUM_PAGES - |proofs|
    {
      var url := nextUrl.value;
      if |proofs| >= MAXIMUM_PAGES {
        NoCover(source, first, Urls(proofs), url);
        failure := Some(RequestBudgetExhausted);
        return;
      }
      if url in visited {
        NoCover(source, first, Urls(proofs), url);
        failure := Some(PaginationIncomplete);
        return;
      }
      visited := visited + {url};
      var proof, found;
      failure, proof, ids, found := AuditPage(source, first, proofs, url, ids, deliveries);
      if failure.Some? { return; }
      assert Urls(proofs + [proof]) == Urls(proofs) + [url];
      deliveries, proofs, nextUrl := found, proofs + [proof], proof.next;
    }
    failure := None;
  }

  /** Reads one page into the progress, or says why no chain goes through it. */
  method AuditPage(source: Source, first: string, proofs: seq<PageProof>, url: string,
    deliveryIds: set<string>, deliveries: seq<Delivery>)
    returns (failure: Option<Cause>, proof: PageProof, ids: set<string>, found: seq<Delivery>)
    requires Progress(source, first, proofs, deliveryIds, deliveries, Some(url)) && |proofs| < MAXIMUM_PAGES
      && url !in Urls(proofs)
    ensures failure.Some? ==> forall all :: !Covers(source, first, all)
    ensures failure.None? ==> proof.url == url && Progress(source, first, proofs + [proof], ids, found, proof.next)
  {
    proof, ids, found := PageProof(url, 0, None), deliveryIds, deliveries;
    var page;
    failure, page := ReadPage(source, url);
    if failure.Some? {
      BadPage(source, first, Urls(proofs), url);
      return;
    }
    if |proofs| * PAGE_SIZE + |page.items| > MAXIMUM_DELIVERIES {
      failure := Some(RequestBudgetExhausted);
      return;
    }
    failure, ids, found := TakeItems(page.items, Deliveries(source, Urls(proofs)), deliveryIds, deliveries);
    var next := NextDeliveryLink(page.link, source.reader);
    if failure.Some? || next.None? {
      BadPage(source, first, Urls(proofs), url);
      failure := if failure.Some? then failure else Some(PaginationIncomplete);
      return;
    }
    proof := PageProof(url, |page.items|, next.value);
    PageTaken(source, first, proofs, deliveryIds, deliveries, url, proof, ids, found);
  }

  /** Fetches one page, and says why it is none. */
  method ReadPage(source: Source, url: string) returns (failure: Option<Cause>, page: Answer)
    ensures page == source.fetch(url)
    ensures failure.None? <==> page.Page? && |page.items| <= PAGE_SIZE
  {
    page := source.fetch(url);
    match page
    case NoAnswer => failure := Some(SourceUnavailable);
    case NotServed(_) => failure := Some(SourceUnavailable);
    case NotAPage => failure := Some(NormalizationFailed);
    case Page(items, _) => failure := if |items| > PAGE_SIZE then Some(NormalizationFailed) else None;
  }
}
