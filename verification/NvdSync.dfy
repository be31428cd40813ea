/** The NVD catalogue sync: recursive bisection of a time window under a request budget,
    page retries, deduplication by CVE identifier, and the run cursor. Times are milliseconds. */
module NvdSync {

  import opened Common

  const DAY := 86_400_000
  const MAX_WINDOW := 6 * 60 * 60 * 1000
  const MAX_REQUESTS := 20
  const MIN_SPLIT := 60_000
  const PAGE_ATTEMPTS := 3
  const MAX_RANGE := 119 * DAY

  /** The longest range twenty requests can cover: sixteen full windows and four milliseconds. */
  const MAX_COVERED := 16 * MAX_WINDOW + 4

  datatype Advisory = Advisory(cve: string, modified: int)

  datatype Page = Page(startIndex: nat, resultsPerPage: nat, totalResults: nat, advisories: seq<Advisory>)

  datatype Fault =
    | InvalidPage | PaginationMismatch | PartialPage | ResponseTooLarge | HttpStatus(code: nat) | OtherFault
    | BudgetExhausted | ImportIncomplete | WindowTooDense | SplitFailed | RetryExhausted

  predicate Retryable(f: Fault) {
    match f
    case InvalidPage | PaginationMismatch | PartialPage => true
    case HttpStatus(code) => code in {403, 429, 500, 502, 503, 504}
    case _ => false
  }

  predicate Splittable(f: Fault) {
    f.InvalidPage? || f.PaginationMismatch? || f.PartialPage? || f.ResponseTooLarge?
  }

  datatype Reply = Delivered(page: Page) | Broken(fault: Fault)

  /** The outside world of one run: the answer to the k-th request, which advisories the
      database accepts, and whether the final correlation pass succeeds. */
  datatype World = World(reply: (nat, int, int) -> Reply, stores: Advisory -> bool, correlates: bool)

  datatype Fetched = Got(page: Page) | Lost(fault: Fault)

  datatype Outcome = Done | Aborted(fault: Fault)

  predicate Acceptable(p: Page) {
    && p.startIndex == 0 && p.resultsPerPage == |p.advisories|
    && !(p.totalResults > 0 && p.advisories == [])
  }

  predicate Complete(p: Page) {
    Acceptable(p) && p.totalResults == |p.advisories|
  }

  // ----- Windows -----

  datatype Window = Window(start: int, end: int)

  /** The windows are short, follow each other without gap and cover [start, end]. */
  predicate Tiles(ws: seq<Window>, start: int, end: int) {
    && ws != [] && ws[0].start == start && ws[|ws| - 1].end == end
    && (forall i :: 0 <= i < |ws| ==> 0 < ws[i].end - ws[i].start <= MAX_WINDOW)
    && (forall i :: 0 <= i < |ws| - 1 ==> ws[i].end == ws[i + 1].start)
  }

  lemma TilesJoin(a: seq<Window>, b: seq<Window>, start: int, mid: int, end: int)
    requires Tiles(a, start, mid) && Tiles(b, mid, end)
    ensures Tiles(a + b, start, end)
  {
  }

  /** The number of windows bisection needs for a range of `d` milliseconds. */
  function Leaves(d: int): (n: nat)
    ensures n >= 1
    decreases d
  {
    if d <= MAX_WINDOW then 1 else Leaves(d / 2) + Leaves(d - d / 2)
  }

  lemma HalvesOrdered(d: int, e: int)
    requires d <= e
    ensures d / 2 <= e / 2 && d - d / 2 <= e - e / 2
  {
  }

  lemma {:induction false} LeavesMonotone(d: int, e: int)
    requires d <= e
    ensures Leaves(d) <= Leaves(e)
    decreases e
  {
    if MAX_WINDOW < d < e {
      var dl, el := d / 2, e / 2;
      HalvesOrdered(d, e);
      LeavesHalve(d);
      LeavesHalve(e);
      LeavesMonotone(dl, el);
      LeavesMonotone(d - dl, e - el);
    }
  }

  /** Leaves of 2^k windows and a few milliseconds, one halving level at a time. */
  lemma LeavesHalve(d: int)
    requires d > MAX_WINDOW
    ensures Leaves(d) == Leaves(d / 2) + Leaves(d - d / 2)
  {
  }

  lemma LeavesSmall()
    ensures Leaves(2 * MAX_WINDOW) == 2 && Leaves(2 * MAX_WINDOW + 1) == 3
    ensures Leaves(4 * MAX_WINDOW + 1) == 5 && Leaves(4 * MAX_WINDOW + 2) == 6
  {
    LeavesHalve(MAX_WINDOW + 1);
    LeavesHalve(2 * MAX_WINDOW);
    LeavesHalve(2 * MAX_WINDOW + 1);
    LeavesHalve(4 * MAX_WINDOW + 1);
    LeavesHalve(4 * MAX_WINDOW + 2);
  }

  lemma LeavesEight()
    ensures Leaves(8 * MAX_WINDOW + 2) == 10 && Leaves(8 * MAX_WINDOW + 3) == 11
  {
    LeavesSmall();
    LeavesHalve(8 * MAX_WINDOW + 2);
    LeavesHalve(8 * MAX_WINDOW + 3);
  }

  lemma LeavesAtLimit()
    ensures Leaves(MAX_COVERED) == 20 && Leaves(MAX_COVERED + 1) == 21
  {
    LeavesEight();
    LeavesHalve(MAX_COVERED);
    LeavesHalve(MAX_COVERED + 1);
  }

  /** The budget covers exactly the ranges of at most four days and four milliseconds. */
  lemma BudgetCovers(d: int)
    ensures Leaves(d) <= MAX_REQUESTS <==> d <= MAX_COVERED
  {
    LeavesAtLimit();
    if d <= MAX_COVERED {
      LeavesMonotone(d, MAX_COVERED);
    } else {
      LeavesMonotone(MAX_COVERED + 1, d);
    }
  }

  // ----- Catalogues -----

  ghost predicate UniqueCves(advisories: set<Advisory>) {
    forall a, b :: a in advisories && b in advisories && a.cve == b.cve ==> a == b
  }

  ghost function ModifiedIn(catalog: set<Advisory>, start: int, end: int): set<Advisory> {
    set a | a in catalog && start <= a.modified <= end
  }

  ghost function Elements(s: seq<Advisory>): set<Advisory> {
    set a | a in s
  }

  /** Against a fixed catalogue: a complete page for a window lists exactly the advisories
      modified in it. Nothing is said about errors or incomplete pages. */
  ghost predicate Faithful(world: World, catalog: set<Advisory>) {
    && UniqueCves(catalog)
    && forall k: nat, s: int, e: int :: s < e ==> FaithfulReply(world.reply(k, s, e), catalog, s, e)
  }

  ghost predicate FaithfulReply(reply: Reply, catalog: set<Advisory>, s: int, e: int) {
    reply.Delivered? && Complete(reply.page) ==> Elements(reply.page.advisories) == ModifiedIn(catalog, s, e)
  }

  /** Every window that may be requested whole is answered by a complete page and stored. */
  ghost predicate Smooth(world: World) {
    && world.correlates
    && (forall k: nat, s: int, e: int :: 0 < e - s <= MAX_WINDOW ==> SmoothReply(world.reply(k, s, e)))
    && forall a :: world.stores(a)
  }

  predicate SmoothReply(reply: Reply) {
    reply.Delivered? && Complete(reply.page)
  }

  predicate NoRepeatedCve(s: seq<Advisory>) {
    forall i, j :: 0 <= i < j < |s| ==> s[i].cve != s[j].cve
  }

  // ----- One run -----

  class Run {
    const world: World
    var requestCount: nat
    var seenCveIds: set<string>
    /** The advisories handed to the database, in order. */
    var submitted: seq<Advisory>
    var fetched: nat
    var failed: nat

    constructor (world: World)
      ensures this.world == world && Valid() && requestCount == 0 && submitted == [] && failed == 0
    {
      this.world := world;
      requestCount, seenCveIds, submitted, fetched, failed := 0, {}, [], 0, 0;
    }

    ghost predicate Valid()
      reads this
    {
      && requestCount <= MAX_REQUESTS
      && seenCveIds == (set a | a in submitted :: a.cve)
      && NoRepeatedCve(submitted)
      && fetched == |submitted|
      && (failed == 0 ==> forall a :: a in submitted ==> world.stores(a))
    }

    method WaitForRequestSlot() returns (granted: bool)
      modifies this`requestCount
      ensures granted == (old(requestCount) < MAX_REQUESTS)
      ensures requestCount == old(requestCount) + if granted then 1 else 0
    {
      if requestCount >= MAX_REQUESTS {
        return false;
      }
      requestCount := requestCount + 1;
      return true;
    }

    method FetchPage(start: int, end: int) returns (r: Fetched)
      requires Valid() && start < end
      modifies this`requestCount
      ensures old(requestCount) <= requestCount <= MAX_REQUESTS
      ensures r.Got? ==>
        && requestCount > old(requestCount)
        && Acceptable(r.page)
        && world.reply(requestCount - 1, start, end) == Delivered(r.page)
      ensures old(requestCount) < MAX_REQUESTS && Smooth(world) && end - start <= MAX_WINDOW ==>
        r.Got? && requestCount == old(requestCount) + 1
    {
      var attempt := 1;
      while attempt <= PAGE_ATTEMPTS
        invariant 1 <= attempt <= PAGE_ATTEMPTS + 1
        invariant old(requestCount) <= requestCount <= MAX_REQUESTS
        invariant attempt > 1 ==> !(old(requestCount) < MAX_REQUESTS && Smooth(world) && end - start <= MAX_WINDOW)
        invariant attempt == 1 ==> requestCount == old(requestCount)
      {
        var fault: Fault;
        var granted := WaitForRequestSlot();
        if !granted {
          fault := BudgetExhausted;
        } else {
          var reply := world.reply(requestCount - 1, start, end);
          assert Smooth(world) && end - start <= MAX_WINDOW ==> SmoothReply(reply);
          match reply {
            case Broken(f) =>
              fault := f;
            case Delivered(page) =>
              if page.startIndex != 0 || page.resultsPerPage != |page.advisories| {
                fault := PaginationMismatch;
              } else if page.totalResults > 0 && page.advisories == [] {
                fault := PartialPage;
              } else {
                return Got(page);
              }
          }
        }
        if !Retryable(fault) || attempt == PAGE_ATTEMPTS {
          return Lost(fault);
        }
        attempt := attempt + 1;
      }
      return Lost(RetryExhausted);
    }

    method ImportPage(page: Page) returns (r: Outcome)
      requires Valid() && failed == 0
      modifies this`seenCveIds, this`submitted, this`fetched, this`failed
      ensures Valid()
      ensures old(submitted) <= submitted
      ensures r == if failed == 0 then Done else Aborted(ImportIncomplete)
      ensures forall a :: a in submitted ==> a in old(submitted) || a in page.advisories
      ensures forall a :: a in page.advisories ==> a.cve in seenCveIds
      ensures (forall a :: world.stores(a)) ==> failed == 0
    {
      var i := 0;
      while i < |page.advisories|
        invariant i <= |page.advisories|
        invariant Valid() && old(submitted) <= submitted
        invariant forall a :: a in submitted ==> a in old(submitted) || a in page.advisories
        invariant forall a :: a in page.advisories[..i] ==> a.cve in seenCveIds
        invariant (forall a :: world.stores(a)) ==> failed == 0
      {
        var advisory := page.advisories[i];
        if advisory.cve !in seenCveIds {
          seenCveIds := seenCveIds + {advisory.cve};
          fetched := fetched + 1;
          submitted := submitted + [advisory];
          if !world.stores(advisory) {
            failed := failed + 1;
          }
        }
        i := i + 1;
      }
      return if failed > 0 then Aborted(ImportIncomplete) else Done;
    }

    /** What a successful call on [start, end] has done, given `catalog` and what was submitted before. */
    ghost predicate Imported(catalog: set<Advisory>, before: seq<Advisory>, start: int, end: int)
      reads this
    {
      Faithful(world, catalog) && Elements(before) <= catalog ==>
        Elements(submitted) == Elements(before) + ModifiedIn(catalog, start, end)
    }

    method SplitWindow(start: int, end: int, ghost catalog: set<Advisory>) returns (r: Outcome, ghost ws: seq<Window>)
      requires Valid() && failed == 0 && start < end
      modifies this
      ensures Valid() && old(submitted) <= submitted && old(requestCount) <= requestCount
      ensures r.Done? ==>
        && failed == 0
        && Tiles(ws, start, end)
        && Leaves((end - start) / 2) + Leaves(end - start - (end - start) / 2) <= |ws| <= requestCount - old(requestCount)
        && Imported(catalog, old(submitted), start, end)
      ensures
        var n := Leaves((end - start) / 2) + Leaves(end - start - (end - start) / 2);
        Smooth(world) && end - start > MAX_WINDOW && old(requestCount) + n <= MAX_REQUESTS ==>
          r.Done? && requestCount == old(requestCount) + n
      decreases end - start, 0
    {
      ws := [];
      var duration := end - start;
      if duration <= MIN_SPLIT {
        return Aborted(WindowTooDense), [];
      }
      var midpoint := start + duration / 2;
      if midpoint <= start || midpoint >= end {
        return Aborted(SplitFailed), [];
      }
      assert midpoint - start == duration / 2 && end - midpoint == duration - duration / 2;
      ghost var left, right;
      r, left := ProcessWindow(start, midpoint, catalog);
      if r.Aborted? {
        return;
      }
      ghost var half := submitted;
      r, right := ProcessWindow(midpoint, end, catalog);
      if r.Aborted? {
        return;
      }
      TilesJoin(left, right, start, midpoint, end);
      ws := left + right;
      assert ModifiedIn(catalog, start, end) == ModifiedIn(catalog, start, midpoint) + ModifiedIn(catalog, midpoint, end);
    }

    method ProcessWindow(start: int, end: int, ghost catalog: set<Advisory>) returns (r: Outcome, ghost ws: seq<Window>)
      requires Valid() && failed == 0 && start < end
      modifies this
      ensures Valid() && old(submitted) <= submitted && old(requestCount) <= requestCount
      ensures r.Done? ==>
        && failed == 0
        && Tiles(ws, start, end)
        && Leaves(end - start) <= |ws| <= requestCount - old(requestCount)
        && Imported(catalog, old(submitted), start, end)
      ensures Smooth(world) && old(requestCount) + Leaves(end - start) <= MAX_REQUESTS ==>
        r.Done? && requestCount == old(requestCount) + Leaves(end - start)
      decreases end - start, 1
    {
      ws := [];
      var duration := end - start;
      if duration > MAX_WINDOW {
        r, ws := SplitWindow(start, end, catalog);
        return;
      }
      var fetchedPage := FetchPage(start, end);
      if fetchedPage.Lost? {
        if Splittable(fetchedPage.fault) && duration > MIN_SPLIT {
          r, ws := SplitWindow(start, end, catalog);
          return;
        }
        return Aborted(fetchedPage.fault), [];
      }
      var parsed := fetchedPage.page;
      assert Smooth(world) ==> SmoothReply(world.reply(requestCount - 1, start, end));
      if parsed.totalResults != |parsed.advisories| {
        r, ws := SplitWindow(start, end, catalog);
        return;
      }
      r := ImportPage(parsed);
      ws := [Window(start, end)];
      if Faithful(world, catalog) && Elements(old(submitted)) <= catalog {
        assert FaithfulReply(world.reply(requestCount - 1, start, end), catalog, start, end);
        PageImported(catalog, old(submitted), submitted, parsed.advisories, start, end);
      }
    }
  }

  /** Skipping already seen CVEs loses nothing when identifiers are unique in the catalogue. */
  lemma PageImported(
    catalog: set<Advisory>, before: seq<Advisory>, after: seq<Advisory>, page: seq<Advisory>, start: int, end: int)
    requires UniqueCves(catalog) && Elements(before) <= catalog && before <= after
    requires Elements(page) == ModifiedIn(catalog, start, end)
    requires forall a :: a in after ==> a in before || a in page
    requires forall a :: a in page ==> a.cve in (set b | b in after :: b.cve)
    ensures Elements(after) == Elements(before) + ModifiedIn(catalog, start, end)
  {
    forall a | a in page
      ensures a in after
    {
      assert a.cve in (set b | b in after :: b.cve);
      var b :| b in after && b.cve == a.cve;
      assert b in Elements(before) || b in Elements(page);
      assert a in Elements(page);
    }
    forall a | a in Elements(before)
      ensures a in after
    {
    }
    assert forall a :: a in after ==> a in Elements(before) || a in Elements(page);
    assert forall a :: a in Elements(page) ==> a in page;
  }

  // ----- The log of runs and its cursor -----

  datatype Entry = Entry(automatic: bool, start: int, end: int, completed: bool)

  /** The end of the most recent completed run. */
  function Cursor(log: seq<Entry>): Option<int> {
    if log == [] then None
    else if log[|log| - 1].completed then Some(log[|log| - 1].end)
    else Cursor(log[..|log| - 1])
  }

  function InitialStart(start: Option<int>, log: seq<Entry>, end: int): int {
    match start
    case Some(s) => s
    case None =>
      match Cursor(log)
      case Some(c) => c
      case None => end - DAY
  }

  /** Every completed automatic run resumes where the last completed run before it stopped. */
  ghost predicate Gapless(log: seq<Entry>) {
    forall i :: 0 <= i < |log| && log[i].automatic && log[i].completed ==>
      && log[i].start < log[i].end
      && (Cursor(log[..i]).Some? ==> log[i].start == Cursor(log[..i]).value)
  }

  lemma CursorSnoc(log: seq<Entry>, e: Entry)
    ensures Cursor(log + [e]) == if e.completed then Some(e.end) else Cursor(log)
  {
    assert (log + [e])[..|log|] == log;
  }

  class SyncStore {
    var log: seq<Entry>

    ghost predicate Valid()
      reads this
    {
      Gapless(log)
    }

    constructor ()
      ensures Valid() && log == []
    {
      log := [];
    }

    /** `submitted` is what the run handed to the database; it is empty when no run was started. */
    method SyncNvdCatalog(world: World, start: Option<int>, end: int, ghost catalog: set<Advisory>)
      returns (ok: bool, submitted: seq<Advisory>)
      requires Valid()
      modifies this
      ensures Valid()
      ensures var from := InitialStart(start, old(log), end);
        log == if 0 < end - from <= MAX_RANGE then old(log) + [Entry(start.None?, from, end, ok)] else old(log)
      ensures Cursor(log) == if ok then Some(end) else Cursor(old(log))
      ensures ok ==> 0 < end - InitialStart(start, old(log), end) <= MAX_COVERED
      ensures NoRepeatedCve(submitted)
      ensures ok ==> forall a :: a in submitted ==> world.stores(a)
      ensures ok && Faithful(world, catalog) ==>
        Elements(submitted) == ModifiedIn(catalog, InitialStart(start, old(log), end), end)
      ensures Smooth(world) && 0 < end - InitialStart(start, old(log), end) <= MAX_COVERED ==> ok
    {
      var initial := InitialStart(start, log, end);
      var duration := end - initial;
      if duration <= 0 || duration > MAX_RANGE {
        return false, [];
      }
      BudgetCovers(duration);
      var run := new Run(world);
      var r, ws := run.ProcessWindow(initial, end, catalog);
      submitted := run.submitted;
      ok := r.Done? && world.correlates;
      ghost var before := log;
      CursorSnoc(log, Entry(start.None?, initial, end, ok));
      log := log + [Entry(start.None?, initial, end, ok)];
      forall i | 0 <= i < |log| && log[i].automatic && log[i].completed
        ensures log[i].start < log[i].end
        ensures Cursor(log[..i]).Some? ==> log[i].start == Cursor(log[..i]).value
      {
        assert i < |before| ==> log[..i] == before[..i] && log[i] == before[i];
        assert i == |before| ==> log[..i] == before;
      }
    }

    /** The coordinator's ticks. Once the backlog exceeds what a run can cover, every later
        automatic run fails, whatever the feed answers, and the cursor stays where it is. */
    method Ticks(worlds: seq<World>, ends: seq<int>) returns (oks: seq<bool>)
      requires Valid() && |worlds| == |ends|
      modifies this
      ensures Valid() && |oks| == |ends|
      ensures
        var c := old(Cursor(log));
        c.Some? && (forall i :: 0 <= i < |ends| ==> ends[i] - c.value > MAX_COVERED) ==>
          Cursor(log) == c && forall i :: 0 <= i < |oks| ==> !oks[i]
      ensures
        var c := old(Cursor(log));
        c.Some? && (forall w :: w in worlds ==> Smooth(w)) && Spaced(c.value, ends) ==>
          && (forall i :: 0 <= i < |oks| ==> oks[i])
          && Cursor(log) == Some(Previous(c.value, ends, |ends|))
    {
      oks := [];
      var i := 0;
      ghost var c := Cursor(log);
      while i < |ends|
        invariant i <= |ends| && |oks| == i && Valid()
        invariant c.Some? && (forall k :: 0 <= k < |ends| ==> ends[k] - c.value > MAX_COVERED) ==>
          Cursor(log) == c && forall k :: 0 <= k < i ==> !oks[k]
        invariant c.Some? && (forall w :: w in worlds ==> Smooth(w)) && Spaced(c.value, ends) ==>
          && (forall k :: 0 <= k < i ==> oks[k])
          && Cursor(log) == Some(Previous(c.value, ends, i))
      {
        assert worlds[i] in worlds;
        assert c.Some? && Spaced(c.value, ends) ==> 0 < ends[i] - Previous(c.value, ends, i) <= MAX_COVERED;
        ghost var before := Cursor(log);
        var ok, _ := SyncNvdCatalog(worlds[i], None, ends[i], {});
        assert before.Some? && Smooth(worlds[i]) && 0 < ends[i] - before.value <= MAX_COVERED ==> ok;
        assert before.Some? && ends[i] - before.value > MAX_COVERED ==> !ok;
        oks := oks + [ok];
        i := i + 1;
      }
    }
  }

  /** Ticks no further apart than a run can cover. */
  predicate Spaced(from: int, ends: seq<int>) {
    forall i :: 0 <= i < |ends| ==> 0 < ends[i] - Previous(from, ends, i) <= MAX_COVERED
  }

  /** The tick before the i-th. */
  function Previous(from: int, ends: seq<int>, i: nat): int
    requires i <= |ends|
  {
    if i == 0 then from else ends[i - 1]
  }

  /** With automatic runs only, no instant between the first covered one and the cursor was skipped. */
  lemma {:induction false} NoHoles(log: seq<Entry>, first: nat, t: int) returns (i: nat)
    requires Gapless(log) && forall k :: 0 <= k < |log| ==> log[k].automatic
    requires first < |log| && log[first].completed && forall k :: 0 <= k < first ==> !log[k].completed
    requires Cursor(log).Some? && log[first].start <= t <= Cursor(log).value
    ensures i < |log| && log[i].completed && log[i].start <= t <= log[i].end
    decreases |log|
  {
    var n := |log| - 1;
    var init := log[..n];
    assert log == init + [log[n]];
    if log[n].completed && log[n].start <= t {
      return n;
    }
    assert forall k :: 0 <= k < n ==> log[..k] == init[..k];
    assert log[..n] == init;
    CursorSome(init, if first < n then first else 0);
    i := NoHoles(init, first, t);
  }

  lemma {:induction false} CursorSome(log: seq<Entry>, k: nat)
    ensures k < |log| && log[k].completed ==> Cursor(log).Some?
    decreases |log|
  {
    if k < |log| && !log[|log| - 1].completed {
      CursorSome(log[..|log| - 1], k);
    }
  }
}
