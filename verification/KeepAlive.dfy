/**
 The driver that `plan`, `after_success`, `after_failure` and `next_wakeup` describe: wake, plan,
 carry the operations out, sleep no longer than `next_wakeup`. An expired subscription is lost for
 good, so the question is whether the renewal margin outlasts the slowest possible retry schedule.
 The answer is exact: it does if and only if the margin exceeds `Lateness(8)`.
 */
module KeepAlive {
  import opened Wrappers
  import opened Renewal
  import opened Keeper

  // ---------------------------------------------------------------------------
  // Runs
  // ---------------------------------------------------------------------------

  datatype Wake = Wake(now: int, subs: seq<TrackedSubscription>)

  /** The platform's two possible answers to an operation. */
  ghost predicate Executed(op: PlannedOperation, s: TrackedSubscription, now: int, s': TrackedSubscription) {
    || s' == AfterFailure(s, now)
    || s' == AfterSuccess(s, now, if op.requestedExpiry.Some? then op.requestedExpiry.value else s.expiresAt,
                          if op.action.Recreate? then s'.id else "")
  }

  ghost predicate Advances(operations: seq<PlannedOperation>, s: TrackedSubscription, now: int,
                           s': TrackedSubscription) {
    if exists op :: op in operations && op.id == s.id
    then exists op :: op in operations && op.id == s.id && Executed(op, s, now, s')
    else s' == s
  }

  ghost predicate Next(w: Wake, w': Wake) {
    && |w'.subs| == |w.subs|
    && (forall i :: 0 <= i < |w.subs| ==> Advances(OperationsOf(w.subs, w.now), w.subs[i], w.now, w'.subs[i]))
    && w.now <= w'.now <= w.now + NextWakeup(w'.subs, w.now)
  }

  /** Active, outside its margin, with no history. */
  ghost predicate FreshlyTracked(s: TrackedSubscription, now: int) {
    && s.state.Active?
    && now < s.MarginEntry()
    && now < s.expiresAt
    && s.lastOperationAt.None?
    && s.consecutiveFailures == 0
    && s.retryNotBefore.None?
  }

  ghost predicate Follows(run: seq<Wake>, i: nat)
    requires i + 1 < |run|
  {
    Next(run[i], run[i + 1])
  }

  ghost predicate Linked(run: seq<Wake>) {
    run != [] && forall i :: 0 <= i < |run| - 1 ==> Follows(run, i)
  }

  ghost predicate Starts(w: Wake) {
    DistinctIds(w.subs) && forall s :: s in w.subs ==> FreshlyTracked(s, w.now)
  }

  ghost predicate Run(run: seq<Wake>) {
    Linked(run) && Starts(run[0])
  }

  ghost predicate PlansRecreation(w: Wake) {
    exists op :: op in OperationsOf(w.subs, w.now) && op.action.Recreate?
  }

  ghost predicate NeverRecreates(run: seq<Wake>) {
    forall i :: 0 <= i < |run| ==> !PlansRecreation(run[i])
  }

  // ---------------------------------------------------------------------------
  // The worst schedule
  // ---------------------------------------------------------------------------

  /** How long after the margin is entered the k-th attempt can come at the latest. */
  function Lateness(attempt: int): int
    requires attempt >= 1
  {
    if attempt == 1 then WAKE_FLOOR - 1
    else Lateness(attempt - 1) + DefaultBackoff(attempt - 1) + WAKE_FLOOR - 1
  }

  /** 8 minutes of oversleeping and 3690 s of backoff, less the microseconds by which each wake-up
      precedes the deadline it serves. */
  lemma {:induction false} WorstLateness()
    ensures Lateness(MAX_CONSECUTIVE_FAILURES) == 4170 * SECOND - 8
    ensures forall k :: 1 <= k < MAX_CONSECUTIVE_FAILURES ==> DefaultBackoff(k) > 0
  {
    DefaultBackoffTable();
    assert Lateness(2) == 150 * SECOND - 2;
    assert Lateness(3) == 270 * SECOND - 3;
    assert Lateness(4) == 450 * SECOND - 4;
    assert Lateness(5) == 750 * SECOND - 5;
    assert Lateness(6) == 1290 * SECOND - 6;
    assert Lateness(7) == 2310 * SECOND - 7;
    forall k | 1 <= k < MAX_CONSECUTIVE_FAILURES ensures DefaultBackoff(k) > 0 {
      BackoffMonotoneAndBounded(1, k, 30 * SECOND, 30 * MINUTE);
    }
  }

  lemma {:induction false} LatenessGrows(k: int)
    requires 1 <= k <= MAX_CONSECUTIVE_FAILURES
    ensures Lateness(k) <= Lateness(MAX_CONSECUTIVE_FAILURES)
    decreases MAX_CONSECUTIVE_FAILURES - k
  {
    WorstLateness();
    if k < MAX_CONSECUTIVE_FAILURES {
      LatenessGrows(k + 1);
    }
  }

  /** After a renewal the subscription lives long enough for the minimal spacing between two
      operations to have passed when the margin is entered again. */
  predicate LongLived(p: RenewalPolicy) {
    p.maxLifetime >= p.margin + MIN_INTERVAL_BETWEEN_OPERATIONS
  }

  predicate Outlasts(p: RenewalPolicy) {
    p.margin > Lateness(MAX_CONSECUTIVE_FAILURES)
  }

  ghost predicate AllOutlast(w: Wake) {
    forall s :: s in w.subs ==> Outlasts(s.policy) && LongLived(s.policy)
  }

  // ---------------------------------------------------------------------------
  // Safety
  // ---------------------------------------------------------------------------

  ghost predicate Followed(s: TrackedSubscription) {
    && s.state.Active?
    && Outlasts(s.policy)
    && LongLived(s.policy)
    && (s.lastOperationAt.Some? ==> s.lastOperationAt.value + MIN_INTERVAL_BETWEEN_OPERATIONS <= s.MarginEntry())
    && (s.consecutiveFailures == 0 ==> s.retryNotBefore.None?)
    && (0 < s.consecutiveFailures < MAX_CONSECUTIVE_FAILURES ==>
          && s.retryNotBefore.Some?
          && s.MarginEntry() <= s.retryNotBefore.value
          && s.retryNotBefore.value <= s.MarginEntry() + Lateness(s.consecutiveFailures)
                                       + DefaultBackoff(s.consecutiveFailures))
  }

  /** The instant of the next attempt on a subscription that is still followed. */
  function Due(s: TrackedSubscription): int {
    if s.retryNotBefore.Some? then s.retryNotBefore.value else s.MarginEntry()
  }

  ghost predicate OnTime(s: TrackedSubscription, now: int) {
    Followed(s) && (s.GivenUp() || now < Due(s) + WAKE_FLOOR)
  }

  ghost predicate Settled(s: TrackedSubscription, now: int) {
    Followed(s) && (s.GivenUp() || now < Due(s))
  }

  lemma OnTimeIsAlive(s: TrackedSubscription, now: int)
    requires OnTime(s, now) && !s.GivenUp()
    ensures now <= s.MarginEntry() + Lateness(s.consecutiveFailures + 1)
    ensures now < s.expiresAt
  {
    LatenessGrows(s.consecutiveFailures + 1);
  }

  lemma AttemptedWhenDue(s: TrackedSubscription, now: int)
    requires OnTime(s, now)
    ensures Verdict(s, now) == if s.GivenUp() || now < Due(s) then Nothing else Renew
  {
    if !s.GivenUp() {
      OnTimeIsAlive(s, now);
    }
  }

  /** One tour: what is due is attempted, and whatever the answer the next attempt lies ahead. */
  lemma TourSettles(subs: seq<TrackedSubscription>, now: int, s: TrackedSubscription, s': TrackedSubscription)
    requires DistinctIds(subs) && s in subs && OnTime(s, now)
    requires Advances(OperationsOf(subs, now), s, now, s')
    ensures Settled(s', now) && s'.id == s.id && s'.policy == s.policy
  {
    AttemptedWhenDue(s, now);
    var ops := OperationsOf(subs, now);
    if exists op :: op in ops && op.id == s.id {
      var op :| op in ops && op.id == s.id && Executed(op, s, now, s');
      OperationIsOwn(subs, now, s, op);
      WorstLateness();
      OnTimeIsAlive(s, now);
    } else if !Verdict(s, now).Nothing? {
      PlanIsPerSubscription(subs, now, OperationFor(s, now));
    }
  }

  lemma OperationIsOwn(subs: seq<TrackedSubscription>, now: int, s: TrackedSubscription, op: PlannedOperation)
    requires DistinctIds(subs) && s in subs && op in OperationsOf(subs, now) && op.id == s.id
    ensures op == OperationFor(s, now) && !Verdict(s, now).Nothing?
  {
    PlanIsPerSubscription(subs, now, op);
  }

  ghost predicate AllOnTime(w: Wake) {
    DistinctIds(w.subs) && forall s :: s in w.subs ==> OnTime(s, w.now)
  }

  lemma StepKeepsOnTime(w: Wake, w': Wake)
    requires AllOnTime(w) && Next(w, w')
    ensures AllOnTime(w')
    ensures forall i :: 0 <= i < |w.subs| ==> w'.subs[i].policy == w.subs[i].policy
  {
    forall i | 0 <= i < |w.subs|
      ensures Settled(w'.subs[i], w.now) && w'.subs[i].id == w.subs[i].id && w'.subs[i].policy == w.subs[i].policy
    {
      TourSettles(w.subs, w.now, w.subs[i], w'.subs[i]);
    }
    forall s | s in w'.subs ensures OnTime(s, w'.now) {
      if !s.GivenUp() {
        assert Due(s) in DeadlinesOf(s);
        WakeupHonoursDeadline(w'.subs, w.now, WAKE_FLOOR, WAKE_CEILING, s, Due(s));
      }
    }
  }

  lemma FreshIsOnTime(w: Wake)
    requires Starts(w) && AllOutlast(w)
    ensures AllOnTime(w)
  {
  }

  lemma {:induction false} RunStaysOnTime(run: seq<Wake>, n: nat)
    requires Linked(run) && AllOnTime(run[0]) && n < |run|
    ensures AllOnTime(run[n])
  {
    if n > 0 {
      RunStaysOnTime(run, n - 1);
      NextStaysOnTime(run, n - 1);
    }
  }

  lemma NextStaysOnTime(run: seq<Wake>, n: nat)
    requires Linked(run) && n + 1 < |run| && AllOnTime(run[n])
    ensures AllOnTime(run[n + 1])
  {
    assert Follows(run, n);
    StepKeepsOnTime(run[n], run[n + 1]);
  }

  /** In every run, however operations fail: a recreation is never planned, and a subscription
      that has not failed eight times in a row is alive at every wake-up. */
  lemma SubscriptionsAreKeptAlive(run: seq<Wake>, n: nat)
    requires Run(run) && AllOutlast(run[0]) && n < |run|
    ensures !PlansRecreation(run[n])
    ensures forall s :: s in run[n].subs && !s.GivenUp() ==> run[n].now < s.expiresAt && s.state.Active?
  {
    FreshIsOnTime(run[0]);
    RunStaysOnTime(run, n);
    var w := run[n];
    forall s | s in w.subs && !s.GivenUp() ensures w.now < s.expiresAt {
      OnTimeIsAlive(s, w.now);
    }
    forall op | op in OperationsOf(w.subs, w.now) ensures !op.action.Recreate? {
      PlanIsPerSubscription(w.subs, w.now, op);
      var s :| s in w.subs && !Verdict(s, w.now).Nothing? && op == OperationFor(s, w.now);
      AttemptedWhenDue(s, w.now);
    }
  }

  // ---------------------------------------------------------------------------
  // The threshold is exact
  // ---------------------------------------------------------------------------

  /** A single subscription whose every attempt fails, woken one microsecond before each deadline
      and then a full minute later, so that every attempt comes as late as it can. */
  ghost predicate Drifting(s: TrackedSubscription, now: int) {
    && s.state.Active?
    && s.consecutiveFailures < MAX_CONSECUTIVE_FAILURES
    && s.lastOperationAt.None?
    && s.policy.margin >= 0
    && (s.retryNotBefore.Some? <==> s.consecutiveFailures > 0)
    && now == Due(s) - 1
    && now + WAKE_FLOOR == s.MarginEntry() + Lateness(s.consecutiveFailures + 1)
  }

  lemma SingletonNext(s: TrackedSubscription, now: int, s': TrackedSubscription, now': int)
    requires Advances(OperationsOf([s], now), s, now, s') && now <= now' <= now + NextWakeup([s'], now)
    ensures Next(Wake(now, [s]), Wake(now', [s']))
  {
  }

  lemma DriftWaits(s: TrackedSubscription, now: int)
    requires Drifting(s, now)
    ensures Verdict(s, now).Nothing?
  {
  }

  /** Before the deadline nothing is done, and the driver may oversleep it by a minute. */
  lemma DriftOversleeps(s: TrackedSubscription, now: int)
    requires Drifting(s, now)
    ensures Next(Wake(now, [s]), Wake(now + WAKE_FLOOR, [s]))
  {
    DriftWaits(s, now);
    SingletonPlan(s, now);
    WakeupIsForADeadline([s], now, WAKE_FLOOR, WAKE_CEILING);
    SingletonNext(s, now, s, now + WAKE_FLOOR);
  }

  /** A failed attempt inside the margin lets the driver sleep to just before the next one. */
  lemma DriftFails(s: TrackedSubscription, now: int, failed: TrackedSubscription)
    requires Drifting(s, now) && now + WAKE_FLOOR < s.expiresAt
    requires failed == AfterFailure(s, now + WAKE_FLOOR) && !failed.GivenUp()
    ensures Next(Wake(now + WAKE_FLOOR, [s]), Wake(Due(failed) - 1, [failed]))
    ensures Drifting(failed, Due(failed) - 1)
  {
    var late := now + WAKE_FLOOR;
    SingletonPlan(s, late);
    WorstLateness();
    EarlyAttemptsInMargin(s.consecutiveFailures + 1);
    var op := OperationFor(s, late);
    assert op in OperationsOf([s], late) && Executed(op, s, late, failed);
    assert [failed][..0] == [];
    BackoffMonotoneAndBounded(failed.consecutiveFailures, failed.consecutiveFailures, 30 * SECOND, 30 * MINUTE);
    SoleDeadline(Due(failed), failed.MarginEntry(), late);
    assert Deadlines([failed]) == [Due(failed), failed.MarginEntry()];
    SingletonNext(s, late, failed, Due(failed) - 1);
  }

  lemma {:induction false} EarlyAttemptsInMargin(k: int)
    requires 1 <= k <= MAX_CONSECUTIVE_FAILURES
    ensures Lateness(k) >= WAKE_FLOOR - 1
  {
    WorstLateness();
    if k > 1 {
      EarlyAttemptsInMargin(k - 1);
    }
  }

  lemma SoleDeadline(ahead: int, past: int, now: int)
    requires past <= now < ahead
    ensures Waits([ahead, past], now) == [ahead - now]
  {
    assert [ahead, past][..1] == [ahead];
    assert Waits([], now) == [];
    assert [ahead][..0] == [];
    assert Waits([ahead], now) == [ahead - now];
  }

  lemma Prepend(w: Wake, run: seq<Wake>)
    requires Linked(run) && Next(w, run[0])
    ensures Linked([w] + run)
  {
    var longer := [w] + run;
    forall i | 0 <= i < |longer| - 1 ensures Follows(longer, i) {
      if i > 0 {
        assert Follows(run, i - 1);
      }
    }
  }

  lemma ExpiredPlansRecreation(s: TrackedSubscription, now: int)
    requires Drifting(s, now) && now + WAKE_FLOOR >= s.expiresAt
    ensures PlansRecreation(Wake(now + WAKE_FLOOR, [s]))
  {
    SingletonPlan(s, now + WAKE_FLOOR);
    assert OperationFor(s, now + WAKE_FLOOR) in OperationsOf([s], now + WAKE_FLOOR);
  }

  lemma {:induction false} DriftReachesExpiry(s: TrackedSubscription, now: int) returns (run: seq<Wake>)
    requires Drifting(s, now) && !Outlasts(s.policy)
    ensures Linked(run) && run[0] == Wake(now, [s]) && PlansRecreation(run[|run| - 1])
    decreases MAX_CONSECUTIVE_FAILURES - s.consecutiveFailures
  {
    var here, late := Wake(now, [s]), Wake(now + WAKE_FLOOR, [s]);
    DriftOversleeps(s, now);
    if late.now >= s.expiresAt {
      ExpiredPlansRecreation(s, now);
      Prepend(here, [late]);
      run := [here] + [late];
    } else {
      var failed := AfterFailure(s, late.now);
      DriftFails(s, now, failed);
      var rest := DriftReachesExpiry(failed, Due(failed) - 1);
      Prepend(late, rest);
      Prepend(here, [late] + rest);
      run := [here] + ([late] + rest);
    }
  }

  /** The margin is long enough if and only if it exceeds the worst lateness. */
  lemma MarginThresholdIsExact(p: RenewalPolicy)
    requires p.margin >= 0 && LongLived(p)
    ensures Outlasts(p) <==>
            forall run: seq<Wake> ::
              Run(run) && (forall s :: s in run[0].subs ==> s.policy == p) ==> NeverRecreates(run)
  {
    if Outlasts(p) {
      forall run: seq<Wake> | Run(run) && (forall s :: s in run[0].subs ==> s.policy == p)
        ensures NeverRecreates(run)
      {
        forall n | 0 <= n < |run| ensures !PlansRecreation(run[n]) {
          SubscriptionsAreKeptAlive(run, n);
        }
      }
    } else {
      var s := TrackedSubscription("s", p.margin + 1, p, Active, None, 0, None);
      var run := DriftReachesExpiry(s, 0);
      assert Run(run) && !NeverRecreates(run);
    }
  }

  /** Graph's 90 minutes and the 6 hours of Workspace Events both pass. */
  lemma ShippedPoliciesOutlast()
    ensures Outlasts(GRAPH_POLICY) && LongLived(GRAPH_POLICY)
    ensures Outlasts(WORKSPACE_EVENTS_POLICY) && LongLived(WORKSPACE_EVENTS_POLICY)
  {
    WorstLateness();
  }
}
