/**
 * Pages of a scan and their reassembly.  A page is validated on its own, then
 * merged into what is already there; what is there may be extended, not changed.
 */
module EyePages {
  import opened Common
  import opened EyeDevice
  import opened EyeCounts
  import opened EyeScan

  datatype PageState = PagePreparing | PageRunning | PageCancelling | PageComplete | PageCancelled | PageFailed | Reading {
    /** States a reader keeps polling in. */
    predicate Polled() {
      this in {PagePreparing, PageRunning, PageCancelling, Reading}
    }
  }

  datatype Page = Page(job: Job, state: PageState, columnsDone: nat, offset: nat,
                       restored: bool, restoreFailed: bool, errors: seq<seq<nat>>)

  /** The reassembled value; `errors` may lag behind `columnsDone`. */
  datatype Value = Value(job: Job, state: PageState, nativeState: PageState, columnsDone: nat,
                         restored: bool, restoreFailed: bool, errors: seq<seq<nat>>)

  const PAGE_COUNT_MAX := 134201344

  /** Columns to a page. */
  function PageColumns(job: Job): nat {
    if job.yPoints > 128 then 2 else 4
  }

  /** validate_chunk. */
  predicate Validates(p: Page) {
    && p.state != Reading
    && p.job.xPoints in {33, 65, 129} && p.job.yPoints in {32, 64, 128, 256}
    && p.offset <= p.columnsDone <= p.job.xPoints
    && |p.errors| <= 4 && p.offset + |p.errors| <= p.columnsDone
    && (forall row <- p.errors :: |row| == p.job.yPoints)
    && (forall i: nat, k: nat :: i < |p.errors| && k < |p.errors[i]| ==> p.errors[i][k] <= PAGE_COUNT_MAX)
    && (p.state == PageComplete ==> p.columnsDone == p.job.xPoints && p.restored && !p.restoreFailed)
  }

  /** Rows that are the true columns from `from` on. */
  ghost predicate AreColumns(rows: seq<seq<nat>>, eye: (nat, nat) -> Word16, from: nat, yPoints: nat) {
    forall i: nat :: i < |rows| ==> rows[i] == TrueColumn(eye, from + i, yPoints)
  }

  /** Nothing measured was a timeout. */
  ghost predicate Measurable(eye: (nat, nat) -> Word16, columns: nat, yPoints: nat) {
    forall x: nat, y: nat :: x < columns && y < yPoints ==> eye(x, y) != TIMEOUT
  }

  /** A page as the native side writes it when `done` columns are there. */
  ghost predicate Honest(p: Page, job: Job, eye: (nat, nat) -> Word16, done: nat) {
    && job.Valid() && done <= job.xPoints && Measurable(eye, done, job.yPoints)
    && p.job == job && p.columnsDone == done && p.offset <= done && p.state != Reading
    && |p.errors| == (if p.offset + PageColumns(job) > done then done - p.offset else PageColumns(job))
    && AreColumns(p.errors, eye, p.offset, job.yPoints)
    && (p.state == PageComplete ==> done == job.xPoints && p.restored && !p.restoreFailed)
  }

  lemma HonestPagesValidate(p: Page, job: Job, eye: (nat, nat) -> Word16, done: nat)
    requires Honest(p, job, eye, done)
    ensures Validates(p)
  {
    forall i: nat, k: nat | i < |p.errors| && k < |p.errors[i]|
      ensures p.errors[i][k] <= PAGE_COUNT_MAX
    {
      assert p.errors[i] == TrueColumn(eye, p.offset + i, job.yPoints);
      assert p.offset + i < done && k < job.yPoints;
      assert eye(p.offset + i, k) != TIMEOUT;
      DecodeIsBounded(eye(p.offset + i, k));
    }
  }

  /** What the reader already has, of a scan with at least `done` columns. */
  ghost predicate Faithful(v: Value, job: Job, eye: (nat, nat) -> Word16, done: nat) {
    && v.job == job && |v.errors| <= v.columnsDone <= done
    && AreColumns(v.errors, eye, 0, job.yPoints)
    && (v.state == PageComplete ==> |v.errors| == job.xPoints == v.columnsDone && v.restored)
  }

  /** What is shown: the native state, except that the whole matrix must be there to be called complete. */
  predicate Shown(v: Value) {
    v.state == if v.nativeState == PageComplete && |v.errors| != v.job.xPoints then Reading else v.nativeState
  }

  /** Rows that would be stored where rows already are must be equal to them. */
  predicate Overlaps(points: seq<seq<nat>>, offset: nat, rows: seq<seq<nat>>) {
    forall i: nat :: i < |rows| && offset + i < |points| ==> points[offset + i] == rows[i]
  }

  /** May the page follow the value? */
  predicate Mergeable(previous: Option<Value>, p: Page) {
    && Validates(p)
    && (previous.Some? ==> previous.value.job == p.job && previous.value.columnsDone <= p.columnsDone)
    && var points := Points(previous);
       p.offset <= |points| && Overlaps(points, p.offset, p.errors)
  }

  function Points(previous: Option<Value>): seq<seq<nat>> {
    if previous.Some? then previous.value.errors else []
  }

  /** The points after a merge. */
  function Extended(points: seq<seq<nat>>, offset: nat, rows: seq<seq<nat>>): seq<seq<nat>>
    requires offset <= |points|
  {
    if offset + |rows| <= |points| then points else points + rows[|points| - offset..]
  }

  /** merge_chunk; None where it raises. */
  method Merge(previous: Option<Value>, p: Page) returns (value: Option<Value>)
    ensures value.Some? <==> Mergeable(previous, p)
    ensures value.Some? ==>
              var v := value.value;
              && v.errors == Extended(Points(previous), p.offset, p.errors)
              && v.job == p.job && v.columnsDone == p.columnsDone && v.nativeState == p.state
              && v.restored == p.restored && v.restoreFailed == p.restoreFailed
              && Shown(v)
  {
    hide Validates;
    if !Validates(p) {
      return None;
    }
    var points := Points(previous);
    if previous.Some? && (previous.value.job != p.job || p.columnsDone < previous.value.columnsDone) {
      return None;
    }
    if p.offset > |points| {
      return None;
    }
    ghost var first := points;
    for i := 0 to |p.errors|
      invariant points == Extended(first, p.offset, p.errors[..i])
      invariant Overlaps(first, p.offset, p.errors[..i])
    {
      var row := p.errors[i];
      assert p.errors[..i + 1] == p.errors[..i] + [row];
      if p.offset + i < |points| {
        if points[p.offset + i] != row {
          assert !Overlaps(first, p.offset, p.errors);
          return None;
        }
      } else {
        points := points + [row];
      }
    }
    assert p.errors[..|p.errors|] == p.errors;
    var state := if p.state == PageComplete && |points| != p.job.xPoints then Reading else p.state;
    value := Some(Value(p.job, state, p.state, p.columnsDone, p.restored, p.restoreFailed, points));
  }

  /** An honest page of the same scan, taken later, is never turned away, and what results is faithful again. */
  lemma HonestPagesMerge(previous: Option<Value>, p: Page, job: Job, eye: (nat, nat) -> Word16, had: nat, done: nat)
    requires previous.Some? ==> Faithful(previous.value, job, eye, had)
    requires had <= done && Honest(p, job, eye, done) && p.offset <= |Points(previous)|
    ensures Mergeable(previous, p)
    ensures AreColumns(Extended(Points(previous), p.offset, p.errors), eye, 0, job.yPoints)
    ensures |Extended(Points(previous), p.offset, p.errors)| <= done
  {
    hide Validates, TrueColumn;
    HonestPagesValidate(p, job, eye, done);
    var points := Points(previous);
    forall i: nat | i < |p.errors| && p.offset + i < |points|
      ensures points[p.offset + i] == p.errors[i]
    {
      assert points[p.offset + i] == TrueColumn(eye, p.offset + i, job.yPoints);
    }
    var all := Extended(points, p.offset, p.errors);
    forall i: nat | i < |all|
      ensures all[i] == TrueColumn(eye, i, job.yPoints)
    {
      if i >= |points| {
        assert all[i] == p.errors[i - p.offset];
      }
    }
  }

  /** A page taken where the reader stands brings all that is left, or a full page. */
  lemma PagesAdvance(points: seq<seq<nat>>, p: Page, job: Job, eye: (nat, nat) -> Word16, done: nat)
    requires Honest(p, job, eye, done) && p.offset == |points|
    ensures |Extended(points, p.offset, p.errors)| ==
            if |points| + PageColumns(job) > done then done else |points| + PageColumns(job)
  {
  }
}
