/** The pruning sweep over the review-result cache: page through every
    stored point, collect the ids whose timestamp lies before a cutoff
    `days` days in the past, and delete exactly those ids in one request.
    The vector store is an input: `collection` is what listing the
    collections and reading the collection's size answer (a Failure for an
    exception), `pages` are the answers to the successive scroll calls and
    `deleteOk` whether the delete request goes through. The clock is the
    input `now`, in seconds. */
module PruneCache {
  import opened Wrappers
  import Text

  const ScrollLimit: nat := 100
  const SecondsPerDay: int := 24 * 60 * 60
  const DefaultDays: int := 7

  /** A scanned point: its id and the `timestamp` of its payload, if any. */
  datatype ScanPoint = ScanPoint(id: int, timestamp: Option<real>)

  /** One scroll answer: a page of points and the next offset, null when
      the store has nothing after this page. */
  datatype Page = Page(points: seq<ScanPoint>, next: Option<int>)

  /** How a run ends. Only `Deleted` sends a delete request.
      `CutoffError` is an error while computing or printing the cutoff,
      which happens before the sweep's error handling begins: nothing
      catches it and the script ends with status 1. */
  datatype Outcome =
    | Disabled
    | CutoffError
    | Missing
    | Failed
    | NothingOld
    | Deleted(ids: seq<int>, remaining: int)

  /** The cutoff: `days` days before `now`. */
  function Cutoff(now: real, days: int): (c: real)
    ensures days >= 0 ==> c <= now
    ensures now - c == (days * SecondsPerDay) as real
  {
    now - (days * SecondsPerDay) as real
  }

  /** `payload.get("timestamp", 0)`. */
  function Timestamp(p: ScanPoint): real {
    if p.timestamp.Some? then p.timestamp.value else 0.0
  }

  predicate IsOld(p: ScanPoint, cutoff: real) {
    Timestamp(p) < cutoff
  }

  /** The ids of the old points of `pts`, in scan order. */
  function OldIds(pts: seq<ScanPoint>, cutoff: real): (ids: seq<int>)
    ensures |ids| <= |pts|
    ensures forall k :: 0 <= k < |pts| && IsOld(pts[k], cutoff) ==> pts[k].id in ids
    ensures forall x :: x in ids ==> exists k :: 0 <= k < |pts| && pts[k].id == x && IsOld(pts[k], cutoff)
  {
    if pts == [] then []
    else
      var last := pts[|pts| - 1];
      var rest := OldIds(pts[..|pts| - 1], cutoff);
      assert forall k :: 0 <= k < |pts| - 1 ==> pts[..|pts| - 1][k] == pts[k];
      if IsOld(last, cutoff) then rest + [last.id] else rest
  }

  lemma {:induction false} OldIdsAppend(a: seq<ScanPoint>, b: seq<ScanPoint>, cutoff: real)
    ensures OldIds(a + b, cutoff) == OldIds(a, cutoff) + OldIds(b, cutoff)
    decreases |b|
  {
    if b != [] {
      var b' := b[..|b| - 1];
      assert (a + b)[..|a + b| - 1] == a + b';
      OldIdsAppend(a, b', cutoff);
    } else {
      assert a + b == a;
    }
  }

  /** With distinct ids, a point at or after the cutoff is never collected. */
  lemma RecentNeverCollected(pts: seq<ScanPoint>, cutoff: real, k: nat)
    requires forall i, j :: 0 <= i < j < |pts| ==> pts[i].id != pts[j].id
    requires k < |pts| && !IsOld(pts[k], cutoff)
    ensures pts[k].id !in OldIds(pts, cutoff)
  {
  }

  /** The scroll loop stops: some answer raises, is empty or has no next
      offset. */
  predicate Ends(pages: seq<Result<Page>>)
    decreases |pages|
  {
    |pages| > 0 &&
    (pages[0].Failure? || pages[0].value.points == [] || pages[0].value.next.None? || Ends(pages[1..]))
  }

  /** The ids the scan collects, or a Failure when a scroll call raises. */
  function Scan(pages: seq<Result<Page>>, cutoff: real): Result<seq<int>>
    requires Ends(pages)
    decreases |pages|
  {
    if pages[0].Failure? then Failure(pages[0].error)
    else
      var page := pages[0].value;
      if page.points == [] then Success([])
      else if page.next.None? then Success(OldIds(page.points, cutoff))
      else match Scan(pages[1..], cutoff)
        case Failure(e) => Failure(e)
        case Success(rest) => Success(OldIds(page.points, cutoff) + rest)
  }

  /** The points the scan reads, page after page, until it stops. */
  function ReadPoints(pages: seq<Result<Page>>): seq<ScanPoint>
    requires Ends(pages)
    decreases |pages|
  {
    if pages[0].Failure? || pages[0].value.points == [] then []
    else if pages[0].value.next.None? then pages[0].value.points
    else pages[0].value.points + ReadPoints(pages[1..])
  }

  /** The number of scroll calls the scan makes. */
  function Calls(pages: seq<Result<Page>>): (n: nat)
    requires Ends(pages)
    ensures 1 <= n <= |pages|
    decreases |pages|
  {
    if pages[0].Failure? || pages[0].value.points == [] || pages[0].value.next.None? then 1
    else 1 + Calls(pages[1..])
  }

  /** A successful scan collects exactly the old points among those read. */
  lemma {:induction false} ScanCollectsOld(pages: seq<Result<Page>>, cutoff: real)
    requires Ends(pages)
    ensures Scan(pages, cutoff).Success? ==> Scan(pages, cutoff).value == OldIds(ReadPoints(pages), cutoff)
    decreases |pages|
  {
    if pages[0].Success? && pages[0].value.points != [] && pages[0].value.next.Some? {
      ScanCollectsOld(pages[1..], cutoff);
      OldIdsAppend(pages[0].value.points, ReadPoints(pages[1..]), cutoff);
    }
  }

  /** Every scroll call asks for at most `ScrollLimit` points; when the
      store keeps to that, the scan reads at most that many per call. */
  lemma {:induction false} ReadPointsBound(pages: seq<Result<Page>>)
    requires Ends(pages)
    requires forall k :: 0 <= k < |pages| && pages[k].Success? ==> |pages[k].value.points| <= ScrollLimit
    ensures |ReadPoints(pages)| <= ScrollLimit * Calls(pages)
    decreases |pages|
  {
    if pages[0].Success? && pages[0].value.points != [] && pages[0].value.next.Some? {
      assert forall k :: 0 <= k < |pages[1..]| ==> pages[1..][k] == pages[k + 1];
      ReadPointsBound(pages[1..]);
    }
  }

  /** `prune_old_cache_entries`, as a value. */
  function Prune(enabled: bool, days: int, now: real, cutoffShown: bool, collection: Result<Option<nat>>,
                 pages: seq<Result<Page>>, deleteOk: bool): Outcome
    requires Ends(pages)
  {
    if !enabled then Disabled
    else if !cutoffShown then CutoffError
    else if collection.Failure? then Failed
    else if collection.value.None? then Missing
    else match Scan(pages, Cutoff(now, days))
      case Failure(_) => Failed
      case Success(ids) =>
        if ids == [] then NothingOld
        else if deleteOk then Deleted(ids, collection.value.value - |ids|)
        else Failed
  }

  /** What a run promises: a delete is sent only with the cache enabled and
      the collection present, never empty, holding exactly the old points
      the scan read, and the remainder is the total less those. */
  lemma PruneDeletesExactlyOld(enabled: bool, days: int, now: real, cutoffShown: bool, collection: Result<Option<nat>>,
                               pages: seq<Result<Page>>, deleteOk: bool)
    requires Ends(pages)
    ensures Prune(enabled, days, now, cutoffShown, collection, pages, deleteOk).Deleted? <==>
      && enabled && cutoffShown && collection.Success? && collection.value.Some? && deleteOk
      && Scan(pages, Cutoff(now, days)).Success? && OldIds(ReadPoints(pages), Cutoff(now, days)) != []
    ensures Prune(enabled, days, now, cutoffShown, collection, pages, deleteOk).Deleted? ==>
      var out := Prune(enabled, days, now, cutoffShown, collection, pages, deleteOk);
      && out.ids == OldIds(ReadPoints(pages), Cutoff(now, days))
      && out.ids != []
      && out.remaining == collection.value.value - |out.ids|
  {
    ScanCollectsOld(pages, Cutoff(now, days));
  }

  /** The scroll loop: pages are read until one raises, is empty or has
      no next offset; old ids are appended page by page. */
  method CollectOldIds(pages: seq<Result<Page>>, cutoff: real) returns (r: Result<seq<int>>)
    requires Ends(pages)
    ensures r == Scan(pages, cutoff)
  {
    var collected: seq<int> := [];
    var i := 0;
    assert pages[0..] == pages;
    assert Scan(pages, cutoff).Success? ==> [] + Scan(pages, cutoff).value == Scan(pages, cutoff).value;
    while true
      invariant 0 <= i < |pages| && Ends(pages[i..])
      invariant Scan(pages, cutoff) == After(collected, Scan(pages[i..], cutoff))
      decreases |pages| - i
    {
      assert pages[i..][0] == pages[i] && pages[i..][1..] == pages[i + 1..];
      if pages[i].Failure? {
        return Failure(pages[i].error);
      }
      var page := pages[i].value;
      if page.points == [] {
        assert collected + [] == collected;
        return Success(collected);
      }
      var here := OldIdsOfPage(page.points, cutoff);
      if page.next.None? {
        return Success(collected + here);
      }
      AfterAppend(collected, here, Scan(pages[i + 1..], cutoff));
      collected := collected + here;
      i := i + 1;
    }
  }

  /** The ids collected so far, followed by what the rest of the scan
      collects. */
  function After(collected: seq<int>, rest: Result<seq<int>>): Result<seq<int>> {
    match rest
    case Failure(e) => Failure(e)
    case Success(ids) => Success(collected + ids)
  }

  lemma AfterAppend(a: seq<int>, b: seq<int>, rest: Result<seq<int>>)
    ensures After(a, After(b, rest)) == After(a + b, rest)
  {
    if rest.Success? {
      assert a + (b + rest.value) == (a + b) + rest.value;
    }
  }

  /** The check of each point of one page against the cutoff. */
  method OldIdsOfPage(pts: seq<ScanPoint>, cutoff: real) returns (ids: seq<int>)
    ensures ids == OldIds(pts, cutoff)
  {
    ids := [];
    for j := 0 to |pts|
      invariant ids == OldIds(pts[..j], cutoff)
    {
      assert pts[..j + 1][..j] == pts[..j];
      if Timestamp(pts[j]) < cutoff {
        ids := ids + [pts[j].id];
      }
    }
    assert pts[..|pts|] == pts;
  }

  /** `prune_old_cache_entries`: no scan without the cache enabled and the
      collection present; the delete only when something old was found;
      every error after the cutoff is printed is caught and ends the run.
      `cutoffShown` says whether the cutoff converts to a float and to a
      local time on this platform (it does not when the day count is too
      large for either). */
  method PruneOldCacheEntries(enabled: bool, days: int, now: real, cutoffShown: bool, collection: Result<Option<nat>>,
                              pages: seq<Result<Page>>, deleteOk: bool)
    returns (out: Outcome)
    requires Ends(pages)
    ensures out == Prune(enabled, days, now, cutoffShown, collection, pages, deleteOk)
  {
    if !enabled {
      return Disabled;
    }
    var cutoff := now - (days * 24 * 60 * 60) as real;
    if !cutoffShown {
      return CutoffError;
    }
    if collection.Failure? {
      return Failed;
    }
    if collection.value.None? {
      return Missing;
    }
    var total := collection.value.value;
    var scanned := CollectOldIds(pages, cutoff);
    if scanned.Failure? {
      return Failed;
    }
    var oldIds := scanned.value;
    if |oldIds| > 0 {
      if !deleteOk {
        return Failed;
      }
      return Deleted(oldIds, total - |oldIds|);
    }
    return NothingOld;
  }

  /** `main`'s reading of the arguments after the script name: 7 days by
      default, the integer given otherwise, None (exit status 1) for an
      argument `int` refuses. */
  function DaysArgument(args: seq<string>): Option<int>
  {
    if |args| > 0 then Text.ParseInt(args[0]) else Some(DefaultDays)
  }

  /** A number of days written out in at most `Text.MaxStrDigits` digits
      is read back as itself; a longer one is refused. */
  lemma DaysArgumentRoundTrip(d: int, rest: seq<string>)
    ensures Text.DigitCount(d) <= Text.MaxStrDigits ==> DaysArgument([Text.IntToString(d)] + rest) == Some(d)
    ensures Text.DigitCount(d) > Text.MaxStrDigits ==> DaysArgument([Text.IntToString(d)] + rest) == None
  {
    Text.IntToStringRoundTrip(d);
  }

  /** The exit status of `main`: 1 for an argument `int` refuses, and 1 for
      a run whose cutoff cannot be shown with the cache enabled, since that
      error is raised before the sweep's handler; 0 otherwise, since the
      sweep catches its own errors. */
  function ExitStatus(args: seq<string>, enabled: bool, cutoffShown: bool): (status: int)
    ensures status == 0 || status == 1
    ensures status == 1 <==> (args != [] && Text.ParseInt(args[0]).None?) || (enabled && !cutoffShown)
  {
    if DaysArgument(args).None? then 1
    else if enabled && !cutoffShown then 1
    else 0
  }

  /** Once the argument is read, the exit status is 1 exactly when the run
      ends with the uncaught cutoff error. */
  lemma ExitStatusOfRun(args: seq<string>, enabled: bool, now: real, cutoffShown: bool,
                        collection: Result<Option<nat>>, pages: seq<Result<Page>>, deleteOk: bool)
    requires Ends(pages) && DaysArgument(args).Some?
    ensures ExitStatus(args, enabled, cutoffShown) == 1 <==>
      Prune(enabled, DaysArgument(args).value, now, cutoffShown, collection, pages, deleteOk) == CutoffError
  {
  }
}
