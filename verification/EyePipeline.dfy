/**
 * Two processes: the scan runs natively while a reader fetches it page by
 * page.  Between any two pages the scan may move on; any request may fail.
 */
module EyePipeline {
  import opened Common
  import opened EyeDevice
  import opened EyeCounts
  import opened EyeScan
  import opened EyePages

  /** What a job once measured. */
  datatype Truth = Truth(job: Job, eye: (nat, nat) -> Word16)

  function StateOf(s: State, cancelRequested: bool): (p: PageState)
    ensures p == PageComplete <==> s == Complete
    ensures p == PageCancelled <==> s == Cancelled
    ensures p == PageFailed <==> s in {Idle, Failed}
    ensures p == PageCancelling <==> s in {Preparing, Running} && cancelRequested
    ensures p == PageRunning <==> s == Running && !cancelRequested
  {
    match s
    case Idle => PageFailed
    case Preparing => if cancelRequested then PageCancelling else PagePreparing
    case Running => if cancelRequested then PageCancelling else PageRunning
    case Complete => PageComplete
    case Cancelled => PageCancelled
    case Failed => PageFailed
  }

  lemma NonEmpty(ids: set<int>)
    ensures ids == {} || exists id :: id in ids
  {
    if forall id :: id !in ids {
      assert ids == {};
    }
  }

  class Panel {
    const scan: Scan
    const reliable: bool  // no request fails, and every page fits
    var cache: map<int, Value>
    ghost var truths: map<int, Truth>  // every scan there has been, by job

    /** Every cached value is a prefix of what its own scan measured. */
    ghost predicate CacheIsFaithful()
      reads this
    {
      forall id <- cache ::
        && id in truths && truths[id].job.id == id
        && Faithful(cache[id], truths[id].job, truths[id].eye, truths[id].job.xPoints)
    }

    ghost predicate Current()
      reads this, scan, scan.device
    {
      scan.verdict.state != Idle ==>
        && scan.job.id in truths && truths[scan.job.id] == Truth(scan.job, scan.device.eye)
        && (scan.job.id in cache ==> cache[scan.job.id].columnsDone <= scan.at.columnsDone)
    }

    ghost predicate Valid()
      reads this, scan, scan.device, scan.errors
    {
      scan.Valid() && CacheIsFaithful() && Current()
    }

    constructor (scan: Scan, reliable: bool)
      requires scan.Valid() && scan.verdict.state == Idle
      ensures Valid() && this.scan == scan
    {
      this.scan, this.reliable := scan, reliable;
      cache, truths := map[], map[];
    }

    // ----- the native side -----------------------------------------------

    /** A fresh job; ids are random and never reused. */
    method Start(j: Job, eye: (nat, nat) -> Word16) returns (accepted: bool)
      requires Valid() && j.mode == scan.device.lane.compare
      requires j.id !in truths && j.id !in cache
      modifies this, scan, scan.device
      ensures Valid() && cache == old(cache)
    {
      accepted := scan.Start(j, eye);
      if accepted {
        truths := truths[j.id := Truth(j, eye)];
      }
    }

    /** The value says of the scan what is so right now. */
    ghost predicate UpToDate(v: Value)
      reads scan
    {
      && v.job == scan.job && v.columnsDone == scan.at.columnsDone
      && v.nativeState == StateOf(scan.verdict.state, scan.cancelRequested)
      && v.restored == scan.verdict.restored && v.restoreFailed == scan.verdict.restoreFailed
      && Shown(v)
    }

    /** So does the page. */
    ghost predicate Tells(p: Page)
      reads scan
    {
      && p.job == scan.job && p.columnsDone == scan.at.columnsDone
      && p.state == StateOf(scan.verdict.state, scan.cancelRequested)
      && p.restored == scan.verdict.restored && p.restoreFailed == scan.verdict.restoreFailed
    }

    /** Time passes for the native side. */
    method Elapse()
      requires Valid()
      modifies scan`at, scan`debts, scan`verdict, scan`finishes, scan`preparationDone, scan`cancelRequested
      modifies scan.errors, scan.device`lane, scan.device`log
      ensures Valid() && scan.at.columnsDone >= old(scan.at.columnsDone)
      ensures scan.verdict.state == Idle <==> old(scan.verdict.state) == Idle
    {
      var turns: int, cancelled: bool := *, *;
      if cancelled {
        scan.Cancel();
      }
      for i := 0 to if turns < 0 then 0 else turns
        invariant Valid() && scan.at.columnsDone >= old(scan.at.columnsDone)
        invariant scan.verdict.state == Idle <==> old(scan.verdict.state) == Idle
      {
        ghost var now := scan.Tick();
      }
    }

    /** fm10k_eye_format: one page; None beyond the columns there are, or when it does not fit. */
    method Format(column: nat) returns (page: Option<Page>)
      requires Valid() && scan.verdict.state != Idle
      ensures page.Some? ==> page.value.offset == column
      ensures page.Some? ==> Honest(page.value, scan.job, scan.device.eye, scan.at.columnsDone) && Tells(page.value)
      ensures column > scan.at.columnsDone ==> page.None?
      ensures reliable && column <= scan.at.columnsDone ==> page.Some?
    {
      var fits: bool := *;
      fits := fits || reliable;
      if column > scan.at.columnsDone || !fits {
        return None;
      }
      var last := column + PageColumns(scan.job);
      if last > scan.at.columnsDone {
        last := scan.at.columnsDone;
      }
      ghost var eye := scan.device.eye;
      var rows: seq<seq<nat>> := [];
      for x := column to last
        invariant |rows| == x - column && AreColumns(rows, eye, column, scan.job.yPoints)
      {
        var row := WriteColumn(x);
        rows := rows + [row];
      }
      page := Some(Page(scan.job, StateOf(scan.verdict.state, scan.cancelRequested), scan.at.columnsDone, column,
                        scan.verdict.restored, scan.verdict.restoreFailed, rows));
      assert Measurable(eye, scan.at.columnsDone, scan.job.yPoints) by {
        forall x: nat, y: nat | x < scan.at.columnsDone && y < scan.job.yPoints
          ensures eye(x, y) != TIMEOUT
        {
          assert Cell(scan.errors, eye, x, y);
        }
      }
    }

    method WriteColumn(x: nat) returns (row: seq<nat>)
      requires Valid() && x < scan.at.columnsDone
      ensures row == TrueColumn(scan.device.eye, x, scan.job.yPoints)
    {
      row := [];
      for y := 0 to scan.job.yPoints
        invariant |row| == y
        invariant forall k: nat :: k < y ==> row[k] == Decode(scan.device.eye(x, k))
      {
        assert Cell(scan.errors, scan.device.eye, x, y);
        row := row + [scan.errors[x, y]];
      }
    }

    /** eye_read over the wire, for any job or a given one: the scan may have moved on, and the request may fail. */
    method Fetch(id: Option<int>, column: nat) returns (ok: bool, page: Option<Page>)
      requires Valid()
      modifies scan`at, scan`debts, scan`verdict, scan`finishes, scan`preparationDone, scan`cancelRequested
      modifies scan.errors, scan.device`lane, scan.device`log
      ensures Valid() && scan.at.columnsDone >= old(scan.at.columnsDone)
      ensures scan.verdict.state == Idle <==> old(scan.verdict.state) == Idle
      ensures ok && page.None? ==> scan.verdict.state == Idle
      ensures ok && page.Some? ==>
                && scan.verdict.state != Idle && (id.Some? ==> scan.job.id == id.value)
                && page.value.offset == column
                && Honest(page.value, scan.job, scan.device.eye, scan.at.columnsDone) && Tells(page.value)
      ensures reliable && (|| scan.verdict.state == Idle
                           || ((id.Some? ==> scan.job.id == id.value) && column <= old(scan.at.columnsDone))) ==>
                ok && (page.Some? <==> scan.verdict.state != Idle)
    {
      Elapse();
      page := None;
      ok := *;
      ok := ok || reliable;
      if !ok {
        return;
      }
      if scan.verdict.state == Idle {
        return;
      }
      if id.Some? && id.value != scan.job.id {
        return false, None;  // the job was replaced
      }
      page := Format(column);
      ok := page.Some?;
    }

    // ----- the reader ----------------------------------------------------

    function Cached(id: int): Option<Value>
      reads this
    {
      if id in cache then Some(cache[id]) else None
    }

    /** One page onto the value: with an honest scan it always fits. */
    method Append(previous: Option<Value>, p: Page, ghost had: nat) returns (value: Option<Value>)
      requires previous.Some? ==> Faithful(previous.value, scan.job, scan.device.eye, had)
      requires had <= scan.at.columnsDone && p.offset <= |Points(previous)|
      requires Honest(p, scan.job, scan.device.eye, scan.at.columnsDone) && Tells(p)
      ensures value.Some? && UpToDate(value.value)
      ensures value.Some? && Faithful(value.value, scan.job, scan.device.eye, scan.at.columnsDone)
      ensures value.value.columnsDone == p.columnsDone
      ensures value.value.errors == Extended(Points(previous), p.offset, p.errors)
    {
      HonestPagesMerge(previous, p, scan.job, scan.device.eye, had, scan.at.columnsDone);
      value := Merge(previous, p);
    }

    /** One more page, taken where the reader stands: all that is left, or a full page. */
    method Next(value: Value) returns (ok: bool, next: Value)
      requires Valid() && scan.verdict.state != Idle
      requires Faithful(value, scan.job, scan.device.eye, scan.at.columnsDone)
      modifies scan`at, scan`debts, scan`verdict, scan`finishes, scan`preparationDone, scan`cancelRequested
      modifies scan.errors, scan.device`lane, scan.device`log
      ensures Valid() && scan.verdict.state != Idle && scan.at.columnsDone >= old(scan.at.columnsDone)
      ensures Faithful(next, scan.job, scan.device.eye, scan.at.columnsDone)
      ensures !ok ==> next == value
      ensures ok ==> UpToDate(next)
      ensures reliable ==> ok
      ensures ok ==> |next.errors| == next.columnsDone || |next.errors| == |value.errors| + PageColumns(scan.job)
      ensures |next.errors| <= |value.errors| + PageColumns(scan.job)
      ensures ok ==> |next.errors| >= |value.errors|
    {
      next := value;
      var page: Option<Page>;
      ghost var had := scan.at.columnsDone;
      ok, page := Fetch(Some(value.job.id), |value.errors|);
      if ok && page.Some? {
        PagesAdvance(value.errors, page.value, scan.job, scan.device.eye, scan.at.columnsDone);
        var merged := Append(Some(value), page.value, had);
        next := merged.value;
      }
    }

    /** The paging loop: at most three more pages. */
    method Catch(first: Value) returns (ok: bool, value: Value)
      requires Valid() && scan.verdict.state != Idle
      requires Faithful(first, scan.job, scan.device.eye, scan.at.columnsDone) && UpToDate(first)
      modifies scan`at, scan`debts, scan`verdict, scan`finishes, scan`preparationDone, scan`cancelRequested
      modifies scan.errors, scan.device`lane, scan.device`log
      ensures Valid() && scan.verdict.state != Idle && scan.at.columnsDone >= old(scan.at.columnsDone)
      ensures Faithful(value, scan.job, scan.device.eye, scan.at.columnsDone)
      ensures |value.errors| >= |first.errors|
      ensures ok ==> UpToDate(value)
      ensures reliable ==> ok
      ensures ok ==> |value.errors| == value.columnsDone
                     || |value.errors| >= |first.errors| + 3 * PageColumns(scan.job)
      ensures |value.errors| <= |first.errors| + 3 * PageColumns(scan.job)
    {
      hide AreColumns, Filled;
      ok, value := true, first;
      for i := 0 to 3
        invariant ok && Valid() && scan.verdict.state != Idle
        invariant scan.at.columnsDone >= old(scan.at.columnsDone)
        invariant Faithful(value, scan.job, scan.device.eye, scan.at.columnsDone) && UpToDate(value)
        invariant |value.errors| == value.columnsDone
                  || |value.errors| >= |first.errors| + i * PageColumns(scan.job)
        invariant |first.errors| <= |value.errors| <= |first.errors| + i * PageColumns(scan.job)
      {
        if |value.errors| >= value.columnsDone {
          break;
        }
        ok, value := Next(value);
        if !ok {
          return;
        }
      }
    }

    /** A value nothing can be added to any more. */
    method Finished(id: Option<int>) returns (value: Option<Value>)
      requires Valid()
      ensures value.Some? ==>
                && id.Some? && value == Cached(id.value) && value.value.job.id == id.value && id.value in truths
                && Faithful(value.value, truths[id.value].job, truths[id.value].eye, truths[id.value].job.xPoints)
                && |value.value.errors| == value.value.columnsDone && !value.value.state.Polled()
      ensures value.None? ==>
                id.None? || id.value !in cache
                || cache[id.value].state.Polled() || |cache[id.value].errors| != cache[id.value].columnsDone
    {
      value := None;
      if id.Some? {
        var key: int := id.value;
        if key in cache && !cache[key].state.Polled() && |cache[key].errors| == cache[key].columnsDone {
          assert CacheIsFaithful();
          assert Faithful(cache[key], truths[key].job, truths[key].eye, truths[key].job.xPoints);
          value := Some(cache[key]);
        }
      }
    }

    /** The cache is bounded: whatever entry it drops is only read again. */
    method Evict()
      requires Valid()
      modifies `cache
      ensures Valid() && cache.Keys <= old(cache.Keys) && forall id <- cache :: cache[id] == old(cache)[id]
      ensures |cache.Keys| <= 8 && (|old(cache).Keys| <= 8 ==> cache == old(cache))
    {
      while |cache.Keys| > 8
        invariant Valid() && cache.Keys <= old(cache.Keys) && forall id <- cache :: cache[id] == old(cache)[id]
        invariant |old(cache).Keys| <= 8 ==> cache == old(cache)
      {
        var keys := cache.Keys;
        NonEmpty(keys);
        var dropped: int :| dropped in keys;
        assert (cache - {dropped}).Keys == keys - {dropped};
        cache := cache - {dropped};
      }
    }

    /** Where there is room the value is in the cache, and nothing is dropped for it. */
    predicate Kept(before: map<int, Value>, after: map<int, Value>, v: Value) {
      var grown := before[v.job.id := v];
      |grown.Keys| <= 8 ==> after == grown
    }

    /** The value is kept under its job, and the cache stays bounded. */
    method Keep(v: Value)
      requires Valid() && scan.verdict.state != Idle
      requires Faithful(v, scan.job, scan.device.eye, scan.at.columnsDone)
      modifies `cache
      ensures Valid() && Kept(old(cache), cache, v)
    {
      hide AreColumns, Filled, Measurable;
      cache := cache[v.job.id := v];
      Evict();
    }

    /** A read that goes to the scan. */
    method ReadLive(id: Option<int>) returns (ok: bool, rejected: bool, value: Option<Value>)
      requires Valid()
      modifies `cache
      modifies scan`at, scan`debts, scan`verdict, scan`finishes, scan`preparationDone, scan`cancelRequested
      modifies scan.errors, scan.device`lane, scan.device`log
      ensures Valid() && !rejected
      ensures !ok ==> cache == old(cache) && value.None?
      ensures ok && value.None? ==> scan.verdict.state == Idle
      ensures ok && value.Some? ==>
                var v := value.value;
                && (id.Some? ==> v.job.id == id.value) && scan.verdict.state != Idle && UpToDate(v)
                && Faithful(v, scan.job, scan.device.eye, scan.at.columnsDone)
                && (|v.errors| == v.columnsDone
                    || |v.errors| >= |Points(old(Cached(v.job.id)))| + 3 * PageColumns(v.job))
                && |v.errors| >= |Points(old(Cached(v.job.id)))|
                && Kept(old(cache), cache, v)
      ensures reliable && scan.verdict.state != Idle && (id.Some? ==> id.value == scan.job.id) ==> ok && value.Some?
    {
      hide AreColumns, Filled, Measurable, Shown, StateOf;
      rejected := false;
      value := None;
      var page: Option<Page>;
      ok, page := Fetch(id, 0);
      if !ok || page.None? {
        return;
      }
      var identity := page.value.job.id;
      var first := Append(Cached(identity), page.value, if identity in cache then cache[identity].columnsDone else 0);
      if first.None? {
        rejected := true;
        return false, rejected, None;
      }
      var v: Value;
      ok, v := Catch(first.value);
      if !ok {
        return;
      }
      value := Some(v);
      Keep(v);
    }

    /**
     * read_eye.  An honest scan is never rejected: only a failed request makes
     * the read fail.  What is returned is a prefix of the truth; "complete" is
     * the whole of it; and every successful poll closes the gap by three pages
     * or closes it altogether.
     */
    method ReadEye(id: Option<int>) returns (ok: bool, rejected: bool, value: Option<Value>)
      requires Valid()
      modifies `cache
      modifies scan`at, scan`debts, scan`verdict, scan`finishes, scan`preparationDone, scan`cancelRequested
      modifies scan.errors, scan.device`lane, scan.device`log
      ensures Valid() && !rejected
      ensures !ok ==> cache == old(cache) && value.None?
      ensures ok && value.None? ==> scan.verdict.state == Idle
      ensures ok && value.Some? ==>
                var v := value.value;
                && v.job.id in truths && (id.Some? ==> v.job.id == id.value)
                && AreColumns(v.errors, truths[v.job.id].eye, 0, v.job.yPoints)
                && (v.state == PageComplete ==> |v.errors| == v.job.xPoints && v.restored)
                && (|v.errors| == v.columnsDone
                    || |v.errors| >= |Points(old(Cached(v.job.id)))| + 3 * PageColumns(v.job))
                && |v.errors| >= |Points(old(Cached(v.job.id)))|
                && ((UpToDate(v) && Kept(old(cache), cache, v))
                    || (Some(v) == old(Cached(v.job.id)) && !v.state.Polled() && cache == old(cache)))
      ensures reliable && scan.verdict.state != Idle && (id.Some? ==> id.value == scan.job.id) ==> ok && value.Some?
    {
      hide AreColumns, Filled, Measurable, UpToDate;
      value := Finished(id);
      if value.Some? {
        return true, false, value;
      }
      ok, rejected, value := ReadLive(id);
    }
  }
}
