/** The bounded crawl of a site: first in, first out, with a set of seen addresses and a budget of pages. */
module Crawl {

  import opened Common

  type Url = nat

  /** What navigating to an address leads to. Every address is navigated to at most once, so the
      outcome is a function of the address. `links` are the accepted links of the page, in document
      order, and None if they could not be extracted; `usable` means a healthy page of the crawled origin. */
  datatype Outcome =
    | NavigationFails
    | Loads(final: Url, usable: bool, links: Option<seq<Url>>)
    | OffLimits          // a public audit led away from its site
    | Aborts             // an error that ends the whole scan

  datatype Observation = Observation(url: Url, source: Option<Url>, failed: bool)

  datatype Result =
    | Crashed
    | NotNavigated
    | Crawled(observations: seq<Observation>, seen: set<Url>, overBudget: set<Url>, extractionFailures: nat)

  datatype Target = Target(url: Url, source: Option<Url>)

  function OutcomeOf(web: map<Url, Outcome>, url: Url): Outcome {
    if url in web then web[url] else NavigationFails
  }

  /** The visit is recorded as a failed navigation. */
  predicate Fails(web: map<Url, Outcome>, url: Url) {
    OutcomeOf(web, url).NavigationFails? || OutcomeOf(web, url).OffLimits?
  }

  function LinksOf(web: map<Url, Outcome>, url: Url): seq<Url> {
    match OutcomeOf(web, url)
    case Loads(_, usable, Some(links)) => if usable then links else []
    case _ => []
  }

  /** The addresses a visit accounts for: its own and the one it was redirected to. */
  function Covered(web: map<Url, Outcome>, url: Url): set<Url> {
    match OutcomeOf(web, url)
    case Loads(final, _, _) => {url, final}
    case _ => {url}
  }

  function FinalOf(web: map<Url, Outcome>, url: Url): Url {
    match OutcomeOf(web, url)
    case Loads(final, _, _) => final
    case _ => url
  }

  // ----- What a crawl is -----

  /** No address is navigated to twice, and the budget is kept. */
  ghost predicate Frugal(observations: seq<Observation>, maxPages: nat) {
    && 0 < |observations| <= maxPages
    && forall i, j :: 0 <= i < j < |observations| ==> observations[i].url != observations[j].url
  }

  /** The links of page i were followed: those of the page that uses up the budget are not. */
  predicate Followed(observations: seq<Observation>, i: nat, maxPages: nat) {
    i < |observations| && i + 1 < maxPages
  }

  predicate LinksTo(web: map<Url, Outcome>, maxPages: nat, observations: seq<Observation>, i: nat, u: Url) {
    Followed(observations, i, maxPages) && u in LinksOf(web, observations[i].url)
  }

  /** Page i > 0 was found on page parents[i], and pages are visited in the order of their parents. */
  ghost predicate BreadthFirst(
    web: map<Url, Outcome>, initial: Url, maxPages: nat, observations: seq<Observation>, parents: seq<nat>)
  {
    && |parents| == |observations| && (observations != [] ==> observations[0] == Observation(initial, None, false))
    && (forall i :: 0 < i < |parents| ==>
         && parents[i] < i && Followed(observations, parents[i], maxPages)
         && observations[i].url in LinksOf(web, observations[parents[i]].url)
         && observations[i].source == Some(FinalOf(web, observations[parents[i]].url))
         && observations[i].failed == Fails(web, observations[i].url))
    && forall i, j :: 0 < i < j < |parents| ==> parents[i] <= parents[j]
  }

  /** Exactly the visited addresses and their redirect targets have been seen. */
  ghost predicate SeenIs(web: map<Url, Outcome>, observations: seq<Observation>, seen: set<Url>) {
    forall u :: u in seen <==> exists i :: 0 <= i < |observations| && u in Covered(web, observations[i].url)
  }

  /** Every link of a followed page has been seen or was over budget. */
  ghost predicate Closed(
    web: map<Url, Outcome>, maxPages: nat, observations: seq<Observation>, known: set<Url>)
  {
    forall i: nat, u :: LinksTo(web, maxPages, observations, i, u) ==> u in known
  }

  /** A page is found from the first followed page that links to it, unless that link was over budget. */
  ghost predicate FirstFound(
    web: map<Url, Outcome>, maxPages: nat, observations: seq<Observation>, parents: seq<nat>, overBudget: set<Url>)
    requires |parents| == |observations|
  {
    forall i, q: nat :: 0 < i < |observations| && q < i && LinksTo(web, maxPages, observations, q, observations[i].url) ==>
      parents[i] <= q || observations[i].url in overBudget
  }

  // ----- The loop -----

  predicate Queued(pending: seq<Target>, url: Url) {
    exists k :: 0 <= k < |pending| && pending[k].url == url
  }

  /** Pending targets were found on followed pages, in the order of those pages. */
  ghost predicate PendingOk(
    web: map<Url, Outcome>, maxPages: nat, observations: seq<Observation>, parents: seq<nat>, pending: seq<Target>, from: seq<nat>)
  {
    && |from| == |pending|
    && (forall k :: 0 <= k < |pending| ==>
         && Followed(observations, from[k], maxPages)
         && pending[k].url in LinksOf(web, observations[from[k]].url)
         && pending[k].source == Some(FinalOf(web, observations[from[k]].url)))
    && (forall k, l :: 0 <= k < l < |from| ==> from[k] <= from[l])
    && forall i, k :: 0 < i < |parents| && 0 <= k < |from| ==> parents[i] <= from[k]
  }

  /** Queues the new links of the page visited last. */
  method FollowLinks(
    web: map<Url, Outcome>, ghost initial: Url, links: seq<Url>, source: Url, maxPages: nat, observations: seq<Observation>,
    seen: set<Url>, pending: seq<Target>, overBudget: set<Url>, ghost parents: seq<nat>, ghost from: seq<nat>)
    returns (pending': seq<Target>, overBudget': set<Url>, ghost from': seq<nat>)
    requires |observations| < maxPages
    requires VisitedInv(web, initial, maxPages, observations, seen, pending, overBudget, parents, from)
    requires links == LinksOf(web, observations[|observations| - 1].url)
    requires source == FinalOf(web, observations[|observations| - 1].url)
    ensures CrawlInv(web, initial, maxPages, observations, seen, pending', overBudget', parents, from')
  {
    pending', overBudget', from' := pending, overBudget, from;
    for n := 0 to |links|
      invariant VisitedInv(web, initial, maxPages, observations, seen, pending', overBudget', parents, from')
      invariant forall m :: 0 <= m < n ==> links[m] in seen || Queued(pending', links[m]) || links[m] in overBudget'
    {
      pending', overBudget', from' := FollowLink(
        web, initial, links[n], source, maxPages, observations, seen, pending', overBudget', parents, from');
    }
  }

  /** Queues one link unless it is known or over budget. */
  method FollowLink(
    web: map<Url, Outcome>, ghost initial: Url, url: Url, source: Url, maxPages: nat, observations: seq<Observation>,
    seen: set<Url>, pending: seq<Target>, overBudget: set<Url>, ghost parents: seq<nat>, ghost from: seq<nat>)
    returns (pending': seq<Target>, overBudget': set<Url>, ghost from': seq<nat>)
    requires |observations| < maxPages
    requires VisitedInv(web, initial, maxPages, observations, seen, pending, overBudget, parents, from)
    requires url in LinksOf(web, observations[|observations| - 1].url)
    requires source == FinalOf(web, observations[|observations| - 1].url)
    ensures VisitedInv(web, initial, maxPages, observations, seen, pending', overBudget', parents, from')
    ensures url in seen || Queued(pending', url) || url in overBudget'
    ensures forall u :: Queued(pending, u) ==> Queued(pending', u)
    ensures overBudget <= overBudget'
  {
    pending', overBudget', from' := pending, overBudget, from;
    if url in seen || Queued(pending', url) {
      return;
    }
    if |observations| + |pending'| >= maxPages {
      OverBudgetKeepsInv(web, initial, maxPages, observations, seen, pending', overBudget', parents, from', url);
      overBudget' := overBudget' + {url};
      return;
    }
    var target := Target(url, Some(source));
    QueuedMore(pending', target);
    QueueKeepsInv(web, initial, maxPages, observations, seen, pending', overBudget', parents, from', target);
    pending', from' := pending' + [target], from' + [|observations| - 1];
  }

  lemma OverBudgetKeepsInv(
    web: map<Url, Outcome>, initial: Url, maxPages: nat, observations: seq<Observation>, seen: set<Url>, pending: seq<Target>,
    overBudget: set<Url>, parents: seq<nat>, from: seq<nat>, url: Url)
    requires VisitedInv(web, initial, maxPages, observations, seen, pending, overBudget, parents, from)
    ensures VisitedInv(web, initial, maxPages, observations, seen, pending, overBudget + {url}, parents, from)
  {
  }

  lemma QueueKeepsInv(
    web: map<Url, Outcome>, initial: Url, maxPages: nat, observations: seq<Observation>, seen: set<Url>, pending: seq<Target>,
    overBudget: set<Url>, parents: seq<nat>, from: seq<nat>, t: Target)
    requires VisitedInv(web, initial, maxPages, observations, seen, pending, overBudget, parents, from)
    requires |observations| + |pending| < maxPages && t.url !in seen && !Queued(pending, t.url)
    requires var last := observations[|observations| - 1].url; t.url in LinksOf(web, last) && t.source == Some(FinalOf(web, last))
    ensures VisitedInv(
      web, initial, maxPages, observations, seen, pending + [t], overBudget, parents, from + [|observations| - 1])
  {
    QueuedMore(pending, t);
    PendingMore(web, maxPages, observations, parents, pending, from, t);
    FirstQueuedMore(web, maxPages, observations, seen, pending, from, overBudget, t);
  }

  lemma QueuedMore(pending: seq<Target>, t: Target)
    ensures forall u :: Queued(pending + [t], u) <==> Queued(pending, u) || u == t.url
  {
    assert (pending + [t])[|pending|] == t;
    forall u | Queued(pending, u)
      ensures Queued(pending + [t], u)
    {
      var k :| 0 <= k < |pending| && pending[k].url == u;
      assert (pending + [t])[k].url == u;
    }
  }

  lemma PendingMore(
    web: map<Url, Outcome>, maxPages: nat, observations: seq<Observation>, parents: seq<nat>, pending: seq<Target>, from: seq<nat>, t: Target)
    requires observations != [] && |observations| < maxPages && |parents| == |observations|
    requires PendingOk(web, maxPages, observations, parents, pending, from)
    requires forall i :: 0 < i < |parents| ==> parents[i] < i
    requires var last := observations[|observations| - 1].url; t.url in LinksOf(web, last) && t.source == Some(FinalOf(web, last))
    ensures PendingOk(web, maxPages, observations, parents, pending + [t], from + [|observations| - 1])
  {
  }

  lemma FirstQueuedMore(
    web: map<Url, Outcome>, maxPages: nat, observations: seq<Observation>, seen: set<Url>, pending: seq<Target>, from: seq<nat>,
    overBudget: set<Url>, t: Target)
    requires observations != [] && |from| == |pending| && FirstQueued(web, maxPages, observations, pending, from, overBudget)
    requires LinksKnown(web, maxPages, observations, |observations| - 1, seen, pending, overBudget)
    requires t.url !in seen && !Queued(pending, t.url)
    ensures FirstQueued(web, maxPages, observations, pending + [t], from + [|observations| - 1], overBudget)
  {
  }

  /** How many followed pages did not give up their links. */
  function Unextracted(web: map<Url, Outcome>, observations: seq<Observation>, n: nat, maxPages: nat): nat
    requires n <= |observations|
  {
    if n == 0 then 0
    else
      var o := OutcomeOf(web, observations[n - 1].url);
      Unextracted(web, observations, n - 1, maxPages)
      + if o.Loads? && o.usable && o.links.None? && n < maxPages then 1 else 0
  }

  lemma {:induction false} UnextractedSnoc(web: map<Url, Outcome>, observations: seq<Observation>, o: Observation, n: nat, maxPages: nat)
    requires n <= |observations|
    ensures Unextracted(web, observations + [o], n, maxPages) == Unextracted(web, observations, n, maxPages)
  {
    if n != 0 {
      UnextractedSnoc(web, observations, o, n - 1, maxPages);
    }
  }

  /** The same for the pending targets. */
  ghost predicate FirstQueued(
    web: map<Url, Outcome>, maxPages: nat, observations: seq<Observation>, pending: seq<Target>, from: seq<nat>, overBudget: set<Url>)
    requires |from| == |pending|
  {
    forall k, q: nat :: 0 <= k < |pending| && LinksTo(web, maxPages, observations, q, pending[k].url) ==>
      from[k] <= q || pending[k].url in overBudget
  }

  /** Everything the loop keeps true between two visits. */
  ghost predicate CrawlInv(
    web: map<Url, Outcome>, initial: Url, maxPages: nat, observations: seq<Observation>, seen: set<Url>, pending: seq<Target>,
    overBudget: set<Url>, parents: seq<nat>, from: seq<nat>)
  {
    && |observations| + |pending| <= maxPages
    && BreadthFirst(web, initial, maxPages, observations, parents)
    && SeenIs(web, observations, seen)
    && (forall i, j :: 0 <= i < j < |observations| ==> observations[i].url != observations[j].url)
    && FirstFound(web, maxPages, observations, parents, overBudget)
    && (observations == [] ==> pending == [Target(initial, None)])
    && (observations != [] ==> PendingOk(web, maxPages, observations, parents, pending, from))
    && (observations != [] ==> FirstQueued(web, maxPages, observations, pending, from, overBudget))
    && LinksKnown(web, maxPages, observations, |observations|, seen, pending, overBudget)
  }

  /** The links of the first n pages, where followed, are seen, queued or over budget. */
  ghost predicate LinksKnown(
    web: map<Url, Outcome>, maxPages: nat, observations: seq<Observation>, n: nat, seen: set<Url>, pending: seq<Target>,
    overBudget: set<Url>)
    requires n <= |observations|
  {
    forall i: nat, u :: i < n && LinksTo(web, maxPages, observations, i, u) ==>
      u in seen || Queued(pending, u) || u in overBudget
  }

  /** As CrawlInv, but the links of the page visited last have not been dealt with. */
  ghost predicate VisitedInv(
    web: map<Url, Outcome>, initial: Url, maxPages: nat, observations: seq<Observation>, seen: set<Url>, pending: seq<Target>,
    overBudget: set<Url>, parents: seq<nat>, from: seq<nat>)
  {
    && observations != [] && |observations| + |pending| <= maxPages
    && BreadthFirst(web, initial, maxPages, observations, parents)
    && SeenIs(web, observations, seen)
    && (forall i, j :: 0 <= i < j < |observations| ==> observations[i].url != observations[j].url)
    && FirstFound(web, maxPages, observations, parents, overBudget)
    && PendingOk(web, maxPages, observations, parents, pending, from)
    && FirstQueued(web, maxPages, observations, pending, from, overBudget)
    && LinksKnown(web, maxPages, observations, |observations| - 1, seen, pending, overBudget)
  }

  /** A page without links to follow needs nothing more. */
  lemma NothingToFollow(
    web: map<Url, Outcome>, initial: Url, maxPages: nat, observations: seq<Observation>, seen: set<Url>, pending: seq<Target>,
    overBudget: set<Url>, parents: seq<nat>, from: seq<nat>)
    requires VisitedInv(web, initial, maxPages, observations, seen, pending, overBudget, parents, from)
    requires LinksOf(web, observations[|observations| - 1].url) == [] || |observations| >= maxPages
    ensures CrawlInv(web, initial, maxPages, observations, seen, pending, overBudget, parents, from)
  {
  }

  /** A target that has been seen meanwhile is dropped. */
  lemma DropKeepsInv(
    web: map<Url, Outcome>, initial: Url, maxPages: nat, observations: seq<Observation>, seen: set<Url>, pending: seq<Target>,
    overBudget: set<Url>, parents: seq<nat>, from: seq<nat>)
    requires CrawlInv(web, initial, maxPages, observations, seen, pending, overBudget, parents, from)
    requires pending != [] && observations != [] && pending[0].url in seen
    ensures CrawlInv(web, initial, maxPages, observations, seen, pending[1..], overBudget, parents, from[1..])
  {
    QueuedRest(pending);
  }

  lemma QueuedRest(pending: seq<Target>)
    requires pending != []
    ensures forall u :: Queued(pending, u) ==> u == pending[0].url || Queued(pending[1..], u)
  {
    forall u | Queued(pending, u) && u != pending[0].url
      ensures Queued(pending[1..], u)
    {
      var k :| 0 <= k < |pending| && pending[k].url == u;
      assert pending[1..][k - 1].url == u;
    }
  }

  lemma VisitBreadthFirst(
    web: map<Url, Outcome>, initial: Url, maxPages: nat, observations: seq<Observation>, pending: seq<Target>,
    parents: seq<nat>, from: seq<nat>, o: Observation)
    requires observations != [] && pending != [] && BreadthFirst(web, initial, maxPages, observations, parents)
    requires PendingOk(web, maxPages, observations, parents, pending, from)
    requires o == Observation(pending[0].url, pending[0].source, Fails(web, pending[0].url))
    ensures BreadthFirst(web, initial, maxPages, observations + [o], parents + [from[0]])
  {
    var more, parents' := observations + [o], parents + [from[0]];
    forall i | 0 < i < |parents'|
      ensures parents'[i] < i && Followed(more, parents'[i], maxPages)
        && more[i].url in LinksOf(web, more[parents'[i]].url)
        && more[i].source == Some(FinalOf(web, more[parents'[i]].url))
        && more[i].failed == Fails(web, more[i].url)
    {
      if i < |parents| {
        assert more[i] == observations[i] && more[parents[i]] == observations[parents[i]];
      } else {
        assert more[from[0]] == observations[from[0]];
      }
    }
  }

  lemma VisitPending(
    web: map<Url, Outcome>, maxPages: nat, observations: seq<Observation>, pending: seq<Target>, parents: seq<nat>,
    from: seq<nat>, o: Observation)
    requires pending != [] && |parents| == |observations| && PendingOk(web, maxPages, observations, parents, pending, from)
    ensures PendingOk(web, maxPages, observations + [o], parents + [from[0]], pending[1..], from[1..])
  {
  }

  lemma LinksToSnoc(web: map<Url, Outcome>, maxPages: nat, observations: seq<Observation>, o: Observation)
    ensures forall q: nat, u :: q < |observations| ==>
      (LinksTo(web, maxPages, observations + [o], q, u) <==> LinksTo(web, maxPages, observations, q, u))
  {
  }

  lemma VisitFirstFound(
    web: map<Url, Outcome>, maxPages: nat, observations: seq<Observation>, pending: seq<Target>, parents: seq<nat>,
    from: seq<nat>, overBudget: set<Url>, o: Observation)
    requires observations != [] && pending != [] && |parents| == |observations| && pending[0].url == o.url
    requires FirstFound(web, maxPages, observations, parents, overBudget)
    requires PendingOk(web, maxPages, observations, parents, pending, from)
    requires FirstQueued(web, maxPages, observations, pending, from, overBudget)
    ensures FirstFound(web, maxPages, observations + [o], parents + [from[0]], overBudget)
    ensures FirstQueued(web, maxPages, observations + [o], pending[1..], from[1..], overBudget)
  {
    LinksToSnoc(web, maxPages, observations, o);
    var observations', parents' := observations + [o], parents + [from[0]];
    forall i, q: nat | 0 < i < |observations'| && q < i && LinksTo(web, maxPages, observations', q, observations'[i].url)
      ensures parents'[i] <= q || observations'[i].url in overBudget
    {
      assert LinksTo(web, maxPages, observations, q, observations'[i].url);
    }
    forall k, q: nat | 0 <= k < |pending[1..]| && LinksTo(web, maxPages, observations', q, pending[1..][k].url)
      ensures from[1..][k] <= q || pending[1..][k].url in overBudget
    {
      assert pending[1..][k] == pending[k + 1];
      if q < |observations| {
        assert LinksTo(web, maxPages, observations, q, pending[k + 1].url);
      }
    }
  }

  lemma VisitLinks(
    web: map<Url, Outcome>, maxPages: nat, observations: seq<Observation>, seen: set<Url>, pending: seq<Target>,
    overBudget: set<Url>, o: Observation)
    requires LinksKnown(web, maxPages, observations, |observations|, seen, pending, overBudget)
    requires pending != [] && pending[0].url == o.url
    ensures LinksKnown(web, maxPages, observations + [o], |observations|, seen + Covered(web, o.url), pending[1..], overBudget)
  {
    LinksToSnoc(web, maxPages, observations, o);
    QueuedRest(pending);
    forall i: nat, u | i < |observations| && LinksTo(web, maxPages, observations + [o], i, u)
      ensures u in seen + Covered(web, o.url) || Queued(pending[1..], u) || u in overBudget
    {
      assert LinksTo(web, maxPages, observations, i, u);
    }
  }

  /** The first target is visited; its own links are dealt with afterwards. */
  lemma VisitKeepsInv(
    web: map<Url, Outcome>, initial: Url, maxPages: nat, observations: seq<Observation>, seen: set<Url>, pending: seq<Target>,
    overBudget: set<Url>, parents: seq<nat>, from: seq<nat>, o: Observation)
    requires CrawlInv(web, initial, maxPages, observations, seen, pending, overBudget, parents, from)
    requires pending != [] && pending[0].url !in seen
    requires o == Observation(pending[0].url, pending[0].source, if observations == [] then false else Fails(web, pending[0].url))
    ensures VisitedInv(
      web, initial, maxPages, observations + [o], seen + Covered(web, o.url), pending[1..], overBudget,
      parents + [if observations == [] then 0 else from[0]], if observations == [] then [] else from[1..])
  {
    if observations == [] {
      VisitCovers(web, observations, seen, o);
      FirstVisit(web, initial, maxPages, o, seen + Covered(web, o.url), overBudget);
      assert observations + [o] == [o] && parents == [] && pending[1..] == [];
    } else {
      LaterVisit(web, initial, maxPages, observations, seen, pending, overBudget, parents, from, o);
    }
  }

  lemma LaterVisit(
    web: map<Url, Outcome>, initial: Url, maxPages: nat, observations: seq<Observation>, seen: set<Url>, pending: seq<Target>,
    overBudget: set<Url>, parents: seq<nat>, from: seq<nat>, o: Observation)
    requires CrawlInv(web, initial, maxPages, observations, seen, pending, overBudget, parents, from)
    requires observations != [] && pending != [] && pending[0].url !in seen
    requires o == Observation(pending[0].url, pending[0].source, Fails(web, pending[0].url))
    ensures VisitedInv(
      web, initial, maxPages, observations + [o], seen + Covered(web, o.url), pending[1..], overBudget, parents + [from[0]], from[1..])
  {
    VisitCovers(web, observations, seen, o);
    VisitDistinct(web, observations, seen, o);
    VisitLinks(web, maxPages, observations, seen, pending, overBudget, o);
    VisitBreadthFirst(web, initial, maxPages, observations, pending, parents, from, o);
    VisitPending(web, maxPages, observations, pending, parents, from, o);
    VisitFirstFound(web, maxPages, observations, pending, parents, from, overBudget, o);
  }

  lemma FirstVisit(web: map<Url, Outcome>, initial: Url, maxPages: nat, o: Observation, seen: set<Url>, overBudget: set<Url>)
    requires o == Observation(initial, None, false) && maxPages >= 1 && SeenIs(web, [o], seen)
    ensures VisitedInv(web, initial, maxPages, [o], seen, [], overBudget, [0], [])
  {
  }

  lemma VisitDistinct(web: map<Url, Outcome>, observations: seq<Observation>, seen: set<Url>, o: Observation)
    requires SeenIs(web, observations, seen) && o.url !in seen
    ensures forall i :: 0 <= i < |observations| ==> observations[i].url != o.url
  {
    forall i | 0 <= i < |observations|
      ensures observations[i].url != o.url
    {
      assert observations[i].url in Covered(web, observations[i].url);
    }
  }

  lemma VisitCovers(web: map<Url, Outcome>, observations: seq<Observation>, seen: set<Url>, o: Observation)
    requires SeenIs(web, observations, seen)
    ensures SeenIs(web, observations + [o], seen + Covered(web, o.url))
  {
    var observations' := observations + [o];
    assert observations'[|observations|] == o;
    forall u
      ensures u in seen + Covered(web, o.url) <==> exists i :: 0 <= i < |observations'| && u in Covered(web, observations'[i].url)
    {
      if u in seen {
        var i :| 0 <= i < |observations| && u in Covered(web, observations[i].url);
        assert observations'[i] == observations[i];
      }
      if i :| 0 <= i < |observations'| && u in Covered(web, observations'[i].url) && i < |observations| {
        assert observations'[i] == observations[i];
      }
    }
  }

  /** Visits the first pending target, which has not been seen, and queues its links. */
  method Visit(
    web: map<Url, Outcome>, ghost initial: Url, maxPages: nat, observations: seq<Observation>, seen: set<Url>,
    pending: seq<Target>, overBudget: set<Url>, failures: nat, ghost parents: seq<nat>, ghost from: seq<nat>)
    returns (
      observations': seq<Observation>, seen': set<Url>, pending': seq<Target>, overBudget': set<Url>, failures': nat,
      ghost parents': seq<nat>, ghost from': seq<nat>)
    requires CrawlInv(web, initial, maxPages, observations, seen, pending, overBudget, parents, from)
    requires pending != [] && pending[0].url !in seen && !OutcomeOf(web, pending[0].url).Aborts?
    requires observations == [] ==> OutcomeOf(web, pending[0].url).Loads?
    requires failures == Unextracted(web, observations, |observations|, maxPages)
    ensures CrawlInv(web, initial, maxPages, observations', seen', pending', overBudget', parents', from')
    ensures failures' == Unextracted(web, observations', |observations'|, maxPages)
    ensures |observations'| == |observations| + 1
  {
    observations', seen', parents', from' := Load(web, initial, maxPages, observations, seen, pending, overBudget, parents, from);
    UnextractedSnoc(web, observations, observations'[|observations|], |observations|, maxPages);
    pending', overBudget', failures', from' :=
      Expand(web, initial, maxPages, observations', seen', pending[1..], overBudget, failures, parents', from');
  }

  /** Navigates to the first pending target and records the visit. */
  method Load(
    web: map<Url, Outcome>, ghost initial: Url, maxPages: nat, observations: seq<Observation>, seen: set<Url>,
    pending: seq<Target>, ghost overBudget: set<Url>, ghost parents: seq<nat>, ghost from: seq<nat>)
    returns (observations': seq<Observation>, seen': set<Url>, ghost parents': seq<nat>, ghost from': seq<nat>)
    requires CrawlInv(web, initial, maxPages, observations, seen, pending, overBudget, parents, from)
    requires pending != [] && pending[0].url !in seen && !OutcomeOf(web, pending[0].url).Aborts?
    requires observations == [] ==> OutcomeOf(web, pending[0].url).Loads?
    ensures VisitedInv(web, initial, maxPages, observations', seen', pending[1..], overBudget, parents', from')
    ensures |observations'| == |observations| + 1 && observations'[..|observations|] == observations
    ensures observations' == observations + [observations'[|observations|]]
  {
    var target := pending[0];
    var outcome := OutcomeOf(web, target.url);
    var o := Observation(target.url, target.source, Fails(web, target.url));
    VisitKeepsInv(web, initial, maxPages, observations, seen, pending, overBudget, parents, from, o);
    parents', from' := parents + [if observations == [] then 0 else from[0]], if observations == [] then [] else from[1..];
    observations' := observations + [o];
    seen' := if outcome.Loads? then seen + {target.url} + {outcome.final} else seen + {target.url};
    assert seen' == seen + Covered(web, o.url);
  }

  /** Queues the links of the page visited last, if it is to be followed and gives them up. */
  method Expand(
    web: map<Url, Outcome>, ghost initial: Url, maxPages: nat, observations: seq<Observation>, seen: set<Url>,
    pending: seq<Target>, overBudget: set<Url>, failures: nat, ghost parents: seq<nat>, ghost from: seq<nat>)
    returns (pending': seq<Target>, overBudget': set<Url>, failures': nat, ghost from': seq<nat>)
    requires VisitedInv(web, initial, maxPages, observations, seen, pending, overBudget, parents, from)
    requires failures == Unextracted(web, observations, |observations| - 1, maxPages)
    ensures CrawlInv(web, initial, maxPages, observations, seen, pending', overBudget', parents, from')
    ensures failures' == Unextracted(web, observations, |observations|, maxPages)
  {
    var outcome := OutcomeOf(web, observations[|observations| - 1].url);
    pending', overBudget', failures', from' := pending, overBudget, failures, from;
    if !outcome.Loads? || !outcome.usable || |observations| >= maxPages {
      NothingToFollow(web, initial, maxPages, observations, seen, pending, overBudget, parents, from);
    } else if outcome.links.None? {
      NothingToFollow(web, initial, maxPages, observations, seen, pending, overBudget, parents, from);
      failures' := failures + 1;
    } else {
      pending', overBudget', from' :=
        FollowLinks(web, initial, outcome.links.value, outcome.final, maxPages, observations, seen, pending, overBudget, parents, from);
    }
  }

  /** The crawl ends with nothing pending. Unless the first page does not load or some page ends the
      scan, it has visited no address twice, kept the budget, gone breadth first, and seen every link
      of every followed page that was not over budget. */
  method RunBrowserScan(initial: Url, web: map<Url, Outcome>, maxPages: nat) returns (r: Result, ghost parents: seq<nat>)
    requires maxPages >= 1
    ensures OutcomeOf(web, initial).NavigationFails? ==> r.Crashed?
    ensures r.NotNavigated? <==> OutcomeOf(web, initial).OffLimits?
    ensures r.Crashed? ==> OutcomeOf(web, initial).NavigationFails? || exists u :: u in web && web[u].Aborts?
    ensures r.Crawled? ==>
      && Frugal(r.observations, maxPages)
      && BreadthFirst(web, initial, maxPages, r.observations, parents)
      && SeenIs(web, r.observations, r.seen)
      && FirstFound(web, maxPages, r.observations, parents, r.overBudget)
      && Closed(web, maxPages, r.observations, r.seen + r.overBudget)
      && r.extractionFailures == Unextracted(web, r.observations, |r.observations|, maxPages)
  {
    var observations: seq<Observation> := [];
    var pending, seen, overBudget, failures := [Target(initial, None)], {}, {}, 0;
    parents := [];
    ghost var from: seq<nat> := [];
    while pending != [] && |observations| < maxPages
      invariant CrawlInv(web, initial, maxPages, observations, seen, pending, overBudget, parents, from)
      invariant failures == Unextracted(web, observations, |observations|, maxPages)
      invariant observations == [] ==> pending != []
      invariant observations != [] ==> OutcomeOf(web, initial).Loads?
      decreases maxPages - |observations|, |pending|
    {
      var target := pending[0];
      if target.url in seen {
        DropKeepsInv(web, initial, maxPages, observations, seen, pending, overBudget, parents, from);
        pending, from := pending[1..], from[1..];
        continue;
      }
      var outcome := OutcomeOf(web, target.url);
      if outcome.Aborts? {
        assert target.url in web && web[target.url].Aborts?;
        return Crashed, parents;
      }
      if observations == [] && outcome.OffLimits? {
        return NotNavigated, parents;
      }
      if observations == [] && outcome.NavigationFails? {
        return Crashed, parents;
      }
      observations, seen, pending, overBudget, failures, parents, from :=
        Visit(web, initial, maxPages, observations, seen, pending, overBudget, failures, parents, from);
    }
    r := Crawled(observations, seen, overBudget, failures);
  }

  // ----- What the crawl has found -----

  ghost predicate Path(web: map<Url, Outcome>, p: seq<Url>, from: Url, to: Url) {
    && p != [] && p[0] == from && p[|p| - 1] == to
    && forall k :: 0 <= k < |p| - 1 ==> p[k + 1] in LinksOf(web, p[k])
  }

  /** The distance of page i from the first one along its parents. */
  function Depth(parents: seq<nat>, i: nat): nat
    requires i < |parents| && forall j :: 0 < j < |parents| ==> parents[j] < j
  {
    if i == 0 then 0 else 1 + Depth(parents, parents[i])
  }

  /** Pages are visited in the order of their depth. */
  lemma {:induction false} DepthsGrow(parents: seq<nat>, i: nat, j: nat)
    requires forall j :: 0 < j < |parents| ==> parents[j] < j
    requires forall i, j :: 0 < i < j < |parents| ==> parents[i] <= parents[j]
    requires i <= j < |parents|
    ensures Depth(parents, i) <= Depth(parents, j)
    decreases j
  {
    if 0 < i < j {
      DepthsGrow(parents, parents[i], parents[j]);
    }
  }

  /** Every visited page can be reached by links, in as many steps as its depth. */
  lemma {:induction false} VisitedIsReachable(
    web: map<Url, Outcome>, initial: Url, maxPages: nat, observations: seq<Observation>, parents: seq<nat>, i: nat)
    returns (p: seq<Url>)
    requires BreadthFirst(web, initial, maxPages, observations, parents) && i < |observations|
    ensures Path(web, p, initial, observations[i].url) && |p| == Depth(parents, i) + 1
    decreases i
  {
    if i == 0 {
      p := [initial];
    } else {
      var front := VisitedIsReachable(web, initial, maxPages, observations, parents, parents[i]);
      p := front + [observations[i].url];
    }
  }

  /** Nothing was over budget, and no visited page was a redirect. */
  ghost predicate Unhindered(web: map<Url, Outcome>, maxPages: nat, observations: seq<Observation>, overBudget: set<Url>) {
    && overBudget == {} && |observations| < maxPages
    && forall i :: 0 <= i < |observations| ==> FinalOf(web, observations[i].url) == observations[i].url
  }

  /** Then every page that links lead to has been visited, and at no greater depth than any path to it. */
  lemma {:induction false} ReachableIsVisited(
    web: map<Url, Outcome>, initial: Url, maxPages: nat, observations: seq<Observation>, parents: seq<nat>, seen: set<Url>,
    overBudget: set<Url>, p: seq<Url>, to: Url)
    returns (i: nat)
    requires observations != [] && BreadthFirst(web, initial, maxPages, observations, parents)
    requires SeenIs(web, observations, seen) && Closed(web, maxPages, observations, seen + overBudget)
    requires FirstFound(web, maxPages, observations, parents, overBudget)
    requires Unhindered(web, maxPages, observations, overBudget) && Path(web, p, initial, to)
    ensures i < |observations| && observations[i].url == to && Depth(parents, i) <= |p| - 1
    decreases |p|
  {
    if |p| == 1 {
      return 0;
    }
    var q := ReachableIsVisited(
      web, initial, maxPages, observations, parents, seen, overBudget, p[..|p| - 1], p[|p| - 2]);
    assert p[|p| - 2 + 1] in LinksOf(web, p[|p| - 2]);
    i := NextIsVisited(web, maxPages, observations, parents, seen, overBudget, q, to);
    if i <= q {
      DepthsGrow(parents, i, q);
    } else {
      DepthsGrow(parents, parents[i], q);
    }
  }

  lemma NextIsVisited(
    web: map<Url, Outcome>, maxPages: nat, observations: seq<Observation>, parents: seq<nat>, seen: set<Url>,
    overBudget: set<Url>, q: nat, to: Url)
    returns (i: nat)
    requires |parents| == |observations| && SeenIs(web, observations, seen)
    requires Closed(web, maxPages, observations, seen + overBudget) && FirstFound(web, maxPages, observations, parents, overBudget)
    requires Unhindered(web, maxPages, observations, overBudget)
    requires q < |observations| && to in LinksOf(web, observations[q].url)
    ensures i < |observations| && observations[i].url == to && (i <= q || parents[i] <= q)
  {
    assert LinksTo(web, maxPages, observations, q, to);
    i :| 0 <= i < |observations| && to in Covered(web, observations[i].url);
  }
}
