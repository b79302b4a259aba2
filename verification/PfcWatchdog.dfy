/**
 * The PFC storm watchdog.  It keeps three clock values and a packet count; a
 * ghost log keeps everything it was ever told, and says what those values mean.
 */
module PfcWatchdog {
  import opened Common

  const WORD := 0x1_0000_0000_0000_0000  // clocks and counters are 64-bit
  const MAX_GAP_MS := 300

  type Clock = t: int | 0 <= t < WORD

  datatype Policy = Policy(detectMs: nat, recoveryMs: nat, cooldownMs: nat) {
    /** Disabled, or within the ranges the configuration schema admits. */
    predicate Valid() {
      || this == Policy(0, 0, 0)
      || (1000 <= detectMs <= 60000 && 100 <= recoveryMs <= 1000
          && 10000 <= cooldownMs <= 600000 && detectMs <= cooldownMs)
    }
  }

  /** The admissible policies reach from one corner to the other, and no further. */
  lemma LimitsAre(p: Policy)
    ensures Policy(0, 0, 0).Valid() && Policy(1000, 100, 10000).Valid() && Policy(60000, 1000, 600000).Valid()
    ensures Policy(60000, 1000, 60000).Valid() && !Policy(60000, 1000, 59999).Valid()
    ensures p.Valid() && p != Policy(0, 0, 0) ==>
              && p.detectMs > 999 && p.detectMs < 60001 && p.recoveryMs > 99 && p.recoveryMs < 1001
              && p.cooldownMs > 9999 && p.cooldownMs < 600001
  {
  }

  datatype Sample = Sample(valid: bool, eligible: bool, paused: bool, queued: bool, tx: Clock)

  datatype Action = Nothing | Release | Restore

  /** Saturating deadline. */
  function Deadline(now: Clock, interval: nat): (d: Clock)
    ensures now + interval < WORD ==> d - now == interval
    ensures now + interval >= WORD ==> d + 1 == WORD
  {
    if WORD - 1 - now < interval then WORD - 1 else now + interval
  }

  /**
   * What the watchdog was told: every observation without a lease, with the
   * policy's state and the end of the cooldown at that moment, and everything
   * else that breaks an observation off.
   */
  datatype Event =
    | Told(enabled: bool, maintenance: bool, now: Clock, sample: Option<Sample>, cooldownUntil: Clock)
    | Break

  /** An observation there is something to learn from. */
  predicate Usable(e: Event) {
    && e.Told? && e.enabled && !e.maintenance && e.now > 0
    && e.sample.Some? && e.sample.value.valid && e.sample.value.eligible
  }

  /** A usable sample that looks like a storm: queued data, paused port, cooldown over. */
  predicate Suspicious(e: Event) {
    Usable(e) && e.sample.value.paused && e.sample.value.queued && e.now >= e.cooldownUntil
  }

  /** The second observation comes soon enough after the first. */
  predicate Soon(a: Event, b: Event) {
    a.Told? && b.Told? && 0 < b.now - a.now <= MAX_GAP_MS
  }

  /** The second sample continues the first: soon enough after it, and nothing was sent. */
  predicate Continues(a: Event, b: Event) {
    Soon(a, b) && a.sample.Some? && b.sample.Some? && a.sample.value.tx == b.sample.value.tx
  }

  /** How many samples up to position n form one unbroken storm ending there. */
  function RunTo(log: seq<Event>, n: nat): (r: nat)
    requires n <= |log|
    ensures r <= n
  {
    if n == 0 || !Suspicious(log[n - 1]) then 0
    else if RunTo(log, n - 1) > 0 && Continues(log[n - 2], log[n - 1]) then RunTo(log, n - 1) + 1
    else 1
  }

  /** ... and at the end of the log. */
  function RunLength(log: seq<Event>): (n: nat)
    ensures n <= |log|
  {
    RunTo(log, |log|)
  }

  /** Where that storm began. */
  function RunStart(log: seq<Event>): Event
    requires RunLength(log) > 0
  {
    log[|log| - RunLength(log)]
  }

  /** From the beginning of that storm to the last sample. */
  function Age(log: seq<Event>): int
    requires RunLength(log) > 0
  {
    var last, start := log[|log| - 1], RunStart(log);
    if last.Told? && start.Told? then last.now - start.now else 0
  }

  /** An unbroken storm from position `from` to position n - 1. */
  ghost predicate Unbroken(log: seq<Event>, from: nat, n: nat)
    requires n <= |log|
  {
    && from < n
    && (forall i :: from <= i < n ==> Suspicious(log[i]))
    && (forall i :: from < i < n ==> Continues(log[i - 1], log[i]))
  }

  /** The run is unbroken ... */
  lemma {:induction false} RunIsUnbroken(log: seq<Event>, n: nat)
    requires n <= |log| && RunTo(log, n) > 0
    ensures Unbroken(log, n - RunTo(log, n), n)
  {
    if RunTo(log, n) > 1 {
      RunIsUnbroken(log, n - 1);
    }
  }

  /** ... and no longer one ends there. */
  lemma {:induction false} RunIsMaximal(log: seq<Event>, from: nat, n: nat)
    requires n <= |log| && Unbroken(log, from, n)
    ensures RunTo(log, n) >= n - from
  {
    if from < n - 1 {
      RunIsMaximal(log, from, n - 1);
    }
  }

  /** A storm lasting at least `detect` ends the log. */
  ghost predicate Storm(log: seq<Event>, detect: nat) {
    exists from: nat :: Unbroken(log, from, |log|) && log[|log| - 1].now - log[from].now >= detect
  }

  lemma CalmIsNoStorm(log: seq<Event>, detect: nat)
    requires log != [] && !Suspicious(log[|log| - 1])
    ensures !Storm(log, detect)
  {
  }

  /** The clock values the watchdog keeps decide exactly that. */
  lemma RunDecidesStorm(log: seq<Event>, detect: nat)
    ensures Storm(log, detect) <==> RunLength(log) > 0 && Age(log) >= detect
  {
    hide RunTo;
    if RunLength(log) > 0 {
      RunIsUnbroken(log, |log|);
    }
    if Storm(log, detect) {
      var from: nat :| Unbroken(log, from, |log|) && log[|log| - 1].now - log[from].now >= detect;
      RunIsMaximal(log, from, |log|);
      RunIsUnbroken(log, |log|);
      EarlierIsLonger(log, |log| - RunLength(log), from, |log|);
    }
  }

  /** A 64-bit counter after n increments. */
  function Wrap(n: nat): Clock {
    n % WORD
  }

  lemma CountStep(n: nat)
    ensures Wrap(Wrap(n) + 1) == Wrap(n + 1)
  {
  }

  lemma {:induction false} PrefixRuns(log: seq<Event>, e: Event, n: nat)
    requires n <= |log|
    ensures RunTo(log + [e], n) == RunTo(log, n)
  {
    if n > 0 {
      PrefixRuns(log, e, n - 1);
    }
  }

  /** How one more event moves the run. */
  lemma RunGrows(log: seq<Event>, e: Event)
    ensures !Suspicious(e) ==> RunLength(log + [e]) == 0
    ensures Suspicious(e) && RunLength(log) > 0 && Continues(log[|log| - 1], e) ==>
              RunLength(log + [e]) > 0 && RunStart(log + [e]) == RunStart(log)
    ensures Suspicious(e) && !(RunLength(log) > 0 && Continues(log[|log| - 1], e)) ==>
              RunLength(log + [e]) > 0 && RunStart(log + [e]) == e
  {
    PrefixRuns(log, e, |log|);
  }

  lemma {:induction false} EarlierIsLonger(log: seq<Event>, a: nat, b: nat, n: nat)
    requires n <= |log| && Unbroken(log, a, n) && a <= b < n
    ensures log[a].now <= log[b].now
    decreases b - a
  {
    if a < b {
      EarlierIsLonger(log, a, b - 1, n);
      assert Continues(log[b - 1], log[b]);
    }
  }

  /**
   * A release judged under a cooldown of `span` counted from `from` comes no
   * earlier than `detect` after its end, even where the deadline saturates.
   */
  lemma CooldownIsQuiet(log: seq<Event>, detect: nat, from: Clock, span: nat)
    requires 0 < detect && Storm(log, detect)
    requires RunLength(log) > 0 && RunStart(log).Told? ==> RunStart(log).cooldownUntil == Deadline(from, span)
    ensures log[|log| - 1].now >= from + span + detect
  {
    RunDecidesStorm(log, detect);
    RunIsUnbroken(log, |log|);
    assert Suspicious(RunStart(log));
  }

  class Watchdog {
    var policy: Policy
    var observing: bool
    var active: bool
    var restoreFailed: bool
    var cooldownNeedsClock: bool
    var lastMs: Clock
    var suspectMs: Clock
    var tx: Clock
    var restoreAtMs: Clock
    var releasedAtMs: Clock
    var cooldownUntilMs: Clock
    var detections: Clock
    var recoveries: Clock
    var failures: Clock
    var gaps: Clock
    ghost var log: seq<Event>
    ghost var cooldownFrom: Clock  // the clock reading the cooldown counts from ...
    ghost var cooldownSpan: nat    // ... and its length
    ghost var leases: nat          // leases ever taken ...
    ghost var ended: nat           // ... and successfully restored

    ghost predicate Valid()
      reads this
    {
      Accounted() && Remembers() && (active ==> lastMs == 0)
    }

    /** Policy, leases and cooldown. */
    ghost predicate Accounted()
      reads this
    {
      && policy.Valid()
      && leases == ended + (if active then 1 else 0)
      && detections == Wrap(leases) && recoveries == Wrap(ended)
      && (active ==> restoreAtMs == Deadline(releasedAtMs, policy.recoveryMs))
      && (cooldownNeedsClock || cooldownUntilMs == Deadline(cooldownFrom, cooldownSpan))
    }

    /** What the three clock values and the packet count stand for. */
    ghost predicate Remembers()
      reads this
    {
      && (lastMs != 0 ==>
            log != [] && Usable(log[|log| - 1]) && log[|log| - 1].now == lastMs
            && log[|log| - 1].sample.value.tx == tx)
      && (lastMs == 0 ==> !observing && RunLength(log) == 0 && (log != [] ==> !Usable(log[|log| - 1])))
      && (observing <==> RunLength(log) > 0)
      && (!observing ==> suspectMs == 0)
      && (observing ==>
            && RunStart(log).Told? && suspectMs == RunStart(log).now && RunStart(log).cooldownUntil == cooldownUntilMs
            && suspectMs >= cooldownUntilMs
            && suspectMs <= lastMs && !cooldownNeedsClock)
    }

    /** The zeroed state of a port that was never configured. */
    constructor ()
      ensures Valid() && !active && log == [] && policy == Policy(0, 0, 0)
      ensures !restoreFailed && !cooldownNeedsClock && cooldownUntilMs == 0
      ensures leases == ended == 0 && failures == gaps == 0
    {
      policy := Policy(0, 0, 0);
      observing, active, restoreFailed, cooldownNeedsClock := false, false, false, false;
      lastMs, suspectMs, tx, restoreAtMs, releasedAtMs, cooldownUntilMs := 0, 0, 0, 0, 0, 0;
      detections, recoveries, failures, gaps := 0, 0, 0, 0;
      log, cooldownFrom, cooldownSpan, leases, ended := [], 0, 0, 0, 0;
    }

    /** fm10k_pfc_wd_gap: whatever was being observed is broken off. */
    method Gap(ghost e: Event)
      requires Accounted() && !Usable(e)
      modifies `observing, `suspectMs, `lastMs, `log
      ensures Valid() && !observing && log == old(log) + [e]
    {
      RunGrows(log, e);
      observing, suspectMs, lastMs := false, 0, 0;
      log := log + [e];
    }

    /** Refused while a lease is held: an active lease cannot vanish. */
    method Configure(p: Policy) returns (accepted: bool)
      requires Valid()
      modifies this
      ensures Valid() && active == old(active) && leases == old(leases) && ended == old(ended)
      ensures accepted <==> !old(active) && p.Valid()
      ensures policy == if accepted then p else old(policy)
      ensures accepted ==> !restoreFailed && log == old(log) + [Break]
      ensures cooldownFrom == old(cooldownFrom) && cooldownSpan == old(cooldownSpan)
    {
      if active || !p.Valid() {
        return false;
      }
      policy := p;
      restoreFailed := false;
      Gap(Break);
      accepted := true;
    }

    /** A lease in doubt, overdue, or once failed, must be given back. */
    predicate MustRestore(sample: Option<Sample>, now: Clock, paused: bool)
      reads this
    {
      || restoreFailed || paused || now == 0 || now < releasedAtMs
      || sample.None? || !sample.value.valid || !sample.value.eligible || now >= restoreAtMs
    }

    predicate Judged(sample: Option<Sample>, now: Clock, paused: bool)
      reads this
    {
      policy.detectMs > 0 && now > 0 && !paused && sample.Some? && sample.value.valid && sample.value.eligible
    }

    /**
     * fm10k_pfc_wd_observe.  Release exactly when what was told ends in a storm
     * that lasted long enough; a lease is kept exactly while it is neither in
     * doubt nor overdue.
     */
    method Observe(sample: Option<Sample>, now: Clock, paused: bool) returns (action: Action)
      requires Valid()
      modifies `observing, `suspectMs, `lastMs, `tx, `gaps, `log
      modifies `cooldownUntilMs, `cooldownNeedsClock, `cooldownFrom, `cooldownSpan
      ensures Valid()
      ensures active ==> log == old(log) && gaps == old(gaps) && cooldownNeedsClock == old(cooldownNeedsClock)
      ensures active ==> action in {Restore, Nothing}
      ensures active ==>
                (action == Nothing <==>
                   && !restoreFailed && !paused && now > 0
                   && sample.Some? && sample.value.valid && sample.value.eligible
                   && 0 <= now - releasedAtMs < policy.recoveryMs && now < WORD - 1)
      ensures !active ==>
                var e := Told(policy.detectMs > 0, paused, now, sample, cooldownUntilMs);
                && log == old(log) + [e]
                && action == (if Storm(log, policy.detectMs) then Release else Nothing)
                && gaps == (if old(log) != [] && Usable(old(log)[|old(log)| - 1]) && Usable(e)
                               && !Soon(old(log)[|old(log)| - 1], e)
                            then Wrap(old(gaps) + 1) else old(gaps))
                && (cooldownNeedsClock <==> old(cooldownNeedsClock) && !Usable(e))
      ensures action == Release ==> now >= cooldownFrom + cooldownSpan + policy.detectMs
      ensures old(cooldownNeedsClock) && !cooldownNeedsClock ==>
                cooldownFrom == now && cooldownSpan == policy.cooldownMs
      ensures !old(cooldownNeedsClock) ==> cooldownFrom == old(cooldownFrom) && cooldownSpan == old(cooldownSpan)
    {
      hide RunLength, Storm, Wrap;
      if active {
        return if MustRestore(sample, now, paused) then Restore else Nothing;
      }
      if !Judged(sample, now, paused) {
        Gap(Told(policy.detectMs > 0, paused, now, sample, cooldownUntilMs));
        CalmIsNoStorm(log, policy.detectMs);
        return Nothing;
      }
      if cooldownNeedsClock {
        cooldownUntilMs := Deadline(now, policy.cooldownMs);
        cooldownNeedsClock := false;
        cooldownFrom, cooldownSpan := now, policy.cooldownMs;
      }
      action := Judge(sample.value, now, Told(true, false, now, sample, cooldownUntilMs));
    }

    /** The bookkeeping of one judged sample. */
    method Judge(sample: Sample, now: Clock, ghost e: Event) returns (action: Action)
      requires Valid() && !active && !cooldownNeedsClock && policy.detectMs > 0 && now > 0
      requires Usable(e) && e == Told(true, false, now, Some(sample), cooldownUntilMs)
      modifies `gaps, `observing, `suspectMs, `lastMs, `tx, `log
      ensures Valid()
      ensures log == old(log) + [e]
      ensures action == if Storm(log, policy.detectMs) then Release else Nothing
      ensures action == Release ==> now >= cooldownFrom + cooldownSpan + policy.detectMs
      ensures gaps == if old(log) != [] && Usable(old(log)[|old(log)| - 1]) && !Soon(old(log)[|old(log)| - 1], e)
                      then Wrap(old(gaps) + 1) else old(gaps)
    {
      hide RunLength, Storm, Wrap;
      var continuous := lastMs != 0 && now > lastMs && now - lastMs <= MAX_GAP_MS;
      if lastMs != 0 && !continuous {
        gaps := Wrap(gaps + 1);
      }
      var suspect := sample.paused && sample.queued && now >= cooldownUntilMs;
      if !suspect || !continuous || !observing || sample.tx != tx {
        observing := suspect;
        suspectMs := if suspect then now else 0;
      }
      lastMs := now;
      tx := sample.tx;
      log := log + [e];
      RunGrows(old(log), e);
      RunDecidesStorm(log, policy.detectMs);
      action := if observing && now - suspectMs >= policy.detectMs then Release else Nothing;
      if action == Release {
        CooldownIsQuiet(log, policy.detectMs, cooldownFrom, cooldownSpan);
      }
    }

    /** fm10k_pfc_wd_releasing: the lease is on record before the mask is written. */
    method Releasing(now: Clock)
      requires Valid()
      modifies this
      ensures Valid() && active
      ensures old(active) ==> leases == old(leases) && releasedAtMs == old(releasedAtMs) && log == old(log)
      ensures !old(active) ==> leases == old(leases) + 1 && releasedAtMs == now && !restoreFailed
      ensures ended == old(ended) && policy == old(policy)
      ensures cooldownFrom == old(cooldownFrom) && cooldownSpan == old(cooldownSpan)
    {
      if active {
        return;
      }
      hide Remembers, Wrap, Deadline, RunLength, RunStart;
      CountStep(leases);
      active := true;
      restoreFailed := false;
      releasedAtMs := now;
      restoreAtMs := Deadline(now, policy.recoveryMs);
      detections := Wrap(detections + 1);
      leases := leases + 1;
      Gap(Break);
    }

    /** fm10k_pfc_wd_restored: only success ends the lease, and starts the cooldown. */
    method Restored(now: Clock, success: bool)
      requires Valid()
      modifies this
      ensures Valid() && policy == old(policy)
      ensures active == (old(active) && !success)
      ensures leases == old(leases) && ended == old(ended) + (if old(active) && success then 1 else 0)
      ensures old(active) && !success ==> restoreFailed && failures == Wrap(old(failures) + 1)
      ensures old(active) && success ==> !restoreFailed && (cooldownNeedsClock <==> now == 0)
      ensures old(active) && success && now > 0 ==> cooldownFrom == now && cooldownSpan == policy.cooldownMs
      ensures log == if old(active) && success then old(log) + [Break] else old(log)
    {
      if !active {
        return;
      }
      if !success {
        restoreFailed := true;
        failures := Wrap(failures + 1);
        return;
      }
      EndLease(now);
    }

    /** The lease is given back. */
    method EndLease(now: Clock)
      requires Valid() && active
      modifies this
      ensures Valid() && policy == old(policy) && !active && !restoreFailed
      ensures leases == old(leases) && ended == old(ended) + 1 && log == old(log) + [Break]
      ensures cooldownNeedsClock <==> now == 0
      ensures cooldownFrom == now && cooldownSpan == policy.cooldownMs
    {
      hide Remembers, Wrap, Deadline, RunLength, RunStart;
      CountStep(ended);
      active := false;
      restoreFailed := false;
      recoveries := Wrap(recoveries + 1);
      ended := ended + 1;
      cooldownUntilMs := Deadline(now, policy.cooldownMs);
      cooldownNeedsClock := now == 0;
      cooldownFrom, cooldownSpan := now, policy.cooldownMs;
      Gap(Break);
    }
  }
}
