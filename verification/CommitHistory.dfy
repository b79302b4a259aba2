/**
 * What is kept across a confirmed commit: the durable record, and the history
 * it must be able to answer for.
 */
module CommitHistory {
  import opened Common
  import opened SwitchConfig

  /** A commit that has not ended; `awaiting` once the hardware holds it. */
  datatype Pending = Pending(job: int, before: Config, awaiting: bool, deadline: int)

  /** The last commit that ended, as shown to users. */
  datatype Last = Last(job: int, revision: int, confirmed: bool)

  /** The authority's state, saved as one file. */
  datatype State = State(revision: int, configuration: Config, pending: Option<Pending>, last: Option<Last>) {
    predicate Awaiting() {
      pending.Some? && pending.value.awaiting
    }

    predicate Sane() {
      && configuration.Valid()
      && (pending.Some? ==> pending.value.before.Valid())
      && (pending.Some? && !pending.value.awaiting ==> pending.value.before == configuration)
    }
  }

  datatype Event =
    | Began(job: int, revision: int, before: Config, after: Config, deadline: int)
    | Confirmed(at: int)
    | Reverted(to: Config)

  /** How a commit may end. */
  predicate Ends(e: Event, began: Event) {
    && began.Began?
    && match e
       case Began(_, _, _, _, _) => false
       case Confirmed(at) => at < began.deadline
       case Reverted(to) => to == began.before
  }

  /** The configuration an end leaves active. */
  function LeftBy(e: Event, began: Event): Config
    requires Ends(e, began)
  {
    if e.Confirmed? then began.after else began.before
  }

  /** Event i fits what came before it. */
  ghost predicate Fits(events: seq<Event>, i: nat)
    requires i < |events|
  {
    if i % 2 == 0 then
      && events[i].Began?
      && (0 < i && Ends(events[i - 1], events[i - 2]) ==> events[i].before == LeftBy(events[i - 1], events[i - 2]))
    else Ends(events[i], events[i - 1])
  }

  /**
   * Commits never overlap: a beginning, its one end, then the next beginning,
   * from the very configuration the end left.
   */
  ghost predicate Alternates(events: seq<Event>) {
    forall i: nat :: i < |events| ==> Fits(events, i)
  }

  /** The open commit of the history is the one on record; otherwise the last end is. */
  ghost predicate Records(events: seq<Event>, s: State) {
    && (s.Awaiting() <==> |events| % 2 == 1)
    && (s.Awaiting() ==> events[|events| - 1] == Opening(s))
    && (!s.Awaiting() && events != [] && Ends(events[|events| - 1], events[|events| - 2]) ==>
          s.configuration == LeftBy(events[|events| - 1], events[|events| - 2]))
  }

  function Opening(s: State): Event
    requires s.Awaiting()
  {
    Began(s.pending.value.job, s.revision, s.pending.value.before, s.configuration, s.pending.value.deadline)
  }

  /** What is on disk while a commit is applied: it would be undone. */
  function Intent(s: State, job: int, deadline: int): State {
    s.(pending := Some(Pending(job, s.configuration, false, deadline)))
  }

  /** A commit shown as confirmed was confirmed, in time. */
  ghost predicate ShownIsTrue(events: seq<Event>, last: Option<Last>) {
    last.Some? && last.value.confirmed ==>
      exists i :: 0 < i < |events| && events[i].Confirmed? && events[i - 1].Began?
                  && events[i - 1].job == last.value.job && events[i - 1].revision == last.value.revision
  }

  /** Successive saves. */
  predicate Advances(a: State, b: State) {
    a.revision <= b.revision && (a.configuration != b.configuration ==> a.revision < b.revision)
  }

  ghost predicate Chain(saved: seq<State>) {
    forall i :: 0 < i < |saved| ==> Advances(saved[i - 1], saved[i])
  }

  /** The durable part of the invariant: it must survive any crash. */
  ghost predicate Durable(disk: State, saved: seq<State>, events: seq<Event>) {
    && disk.Sane()
    && saved != [] && saved[|saved| - 1] == disk && Chain(saved)
    && Alternates(events) && Records(events, disk) && ShownIsTrue(events, disk.last)
  }

  // ----- what the history gives ------------------------------------------

  /** A revision number names one configuration, for ever. */
  lemma {:induction false} RevisionNamesConfiguration(saved: seq<State>, i: nat, k: nat)
    requires Chain(saved) && i <= k < |saved|
    ensures saved[i].revision <= saved[k].revision
    ensures saved[i].revision == saved[k].revision ==> saved[i].configuration == saved[k].configuration
  {
    if i < k {
      RevisionNamesConfiguration(saved, i, k - 1);
      assert Advances(saved[k - 1], saved[k]);
    }
  }

  function CountBegan(events: seq<Event>): nat {
    if events == [] then 0
    else CountBegan(events[..|events| - 1]) + if events[|events| - 1].Began? then 1 else 0
  }

  /** Every commit that began has ended exactly once, except the one still open. */
  lemma {:induction false} EachCommitEndsOnce(events: seq<Event>)
    requires Alternates(events)
    ensures 2 * CountBegan(events) == |events| + |events| % 2
  {
    if events != [] {
      var rest := events[..|events| - 1];
      forall i: nat | i < |rest|
        ensures Fits(rest, i)
      {
        assert Fits(events, i) && events[..i + 1] == rest[..i + 1];
        assert rest[i] == events[i] && (0 < i ==> rest[i - 1] == events[i - 1]);
      }
      EachCommitEndsOnce(rest);
      assert Fits(events, |rest|);
    }
  }

  // ----- preservation, save by save --------------------------------------

  lemma SaveKeepsChain(saved: seq<State>, s: State)
    requires saved != [] && Chain(saved) && Advances(saved[|saved| - 1], s)
    ensures Chain(saved + [s])
  {
  }

  lemma EventKeepsAlternation(events: seq<Event>, e: Event)
    requires Alternates(events) && Fits(events + [e], |events|)
    ensures Alternates(events + [e])
  {
    forall i: nat | i < |events|
      ensures Fits(events + [e], i)
    {
      assert Fits(events, i);
    }
  }

  lemma EventKeepsShown(events: seq<Event>, e: Event, last: Option<Last>)
    requires ShownIsTrue(events, last)
    ensures ShownIsTrue(events + [e], last)
  {
    if last.Some? && last.value.confirmed {
      var i :| 0 < i < |events| && events[i].Confirmed? && events[i - 1].Began?
               && events[i - 1].job == last.value.job && events[i - 1].revision == last.value.revision;
      var grown := events + [e];
      assert grown[i] == events[i] && grown[i - 1] == events[i - 1];
    }
  }

  /** A save that neither begins nor ends a commit. */
  lemma PlainSave(disk: State, s: State, saved: seq<State>, events: seq<Event>)
    requires Durable(disk, saved, events)
    requires !disk.Awaiting() && !s.Awaiting() && s.Sane() && Advances(disk, s)
    requires s.configuration == disk.configuration
    requires s.last == disk.last || (s.last.Some? && !s.last.value.confirmed)
    ensures Durable(s, saved + [s], events)
  {
    SaveKeepsChain(saved, s);
  }

  lemma BeginSave(disk: State, s: State, saved: seq<State>, events: seq<Event>)
    requires Durable(disk, saved, events)
    requires !disk.Awaiting() && s.Awaiting() && s.Sane() && Advances(disk, s) && s.last == disk.last
    requires s.pending.value.before == disk.configuration
    ensures Durable(s, saved + [s], events + [Opening(s)])
  {
    SaveKeepsChain(saved, s);
    EventKeepsAlternation(events, Opening(s));
    EventKeepsShown(events, Opening(s), s.last);
  }

  lemma EndSave(disk: State, s: State, saved: seq<State>, events: seq<Event>, end: Event)
    requires Durable(disk, saved, events)
    requires disk.Awaiting() && s.pending.None? && s.Sane() && Advances(disk, s)
    requires Ends(end, events[|events| - 1]) && s.configuration == LeftBy(end, events[|events| - 1])
    requires end.Confirmed? ==> s.last == Some(Last(disk.pending.value.job, disk.revision, true))
    requires end.Reverted? ==> s.last.Some? && !s.last.value.confirmed
    ensures Durable(s, saved + [s], events + [end])
  {
    SaveKeepsChain(saved, s);
    EventKeepsAlternation(events, end);
    if end.Confirmed? {
      var grown := events + [end];
      assert grown[|events|].Confirmed? && grown[|events| - 1] == events[|events| - 1];
    }
  }

  // ----- a confirmation, and what it is worth ----------------------------

  /** What confirm() shows from then on. */
  function Confirming(s: State, job: int): State {
    s.(pending := None, last := Some(Last(job, s.revision, true)))
  }

  /** No other commit on trial has had this job id at this revision. */
  predicate Fresh(events: seq<Event>, s: State, job: int) {
    forall i :: 0 <= i < |events| && events[i].Began? && events[i].job == job && events[i].revision == s.revision ==>
      s.Awaiting() && i == |events| - 1
  }

  /**
   * confirm() does not look at the phase of the pending commit: what it shows
   * is true if and only if the commit was on trial.
   */
  lemma ConfirmIsTrueIff(events: seq<Event>, s: State, job: int, now: int)
    requires Alternates(events) && Records(events, s) && Fresh(events, s, job)
    requires s.pending.Some? && s.pending.value.job == job
    ensures ShownIsTrue(events + [Confirmed(now)], Confirming(s, job).last) <==> s.Awaiting()
  {
    var grown := events + [Confirmed(now)];
    if s.Awaiting() {
      assert grown[|events|].Confirmed? && grown[|events| - 1] == events[|events| - 1] == Opening(s);
    } else {
      assert forall i :: 0 <= i < |events| ==> grown[i] == events[i];
    }
  }

  /**
   * Such a run: the first save of a commit raises.  The commit is left pending
   * but not on trial, so no deadline ends it, and confirm() then shows as
   * confirmed what was never applied.
   */
  lemma RaisedSaveConfirmsNothing(s: State, events: seq<Event>, job: int, deadline: int, now: int)
    requires s.Sane() && s.pending.None? && Alternates(events) && Records(events, s) && Fresh(events, s, job)
    ensures var left := Intent(s, job, deadline);
            && !left.Awaiting() && Confirming(left, job).configuration == s.configuration
            && !ShownIsTrue(events + [Confirmed(now)], Confirming(left, job).last)
  {
    ConfirmIsTrueIff(events, Intent(s, job, deadline), job, now);
  }
}
