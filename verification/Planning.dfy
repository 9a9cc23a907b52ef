/**
 What a plan means, read off the fields of the subscriptions alone: which instants, states and counts lead
 to which operation (connector_service/subscription_keeper.py, connector_service/subscription_renewal.py).
 Durations are spelled out in microseconds.
 */
module Planning {
  import opened Wrappers
  import opened Renewal
  import opened Keeper

  /** Eight failures in a row, a retry date ahead, or a success less than ten minutes old. */
  predicate HeldBack(s: TrackedSubscription, now: int) {
    || s.consecutiveFailures >= 8
    || (s.retryNotBefore.Some? && now < s.retryNotBefore.value)
    || (s.lastOperationAt.Some? && now < s.lastOperationAt.value + 600_000_000)
  }

  predicate Dead(s: TrackedSubscription, now: int) {
    s.state == Expired || s.expiresAt <= now
  }

  /** The operation suits the subscription: a dead one is recreated, and so is a suspended one where nothing
      reactivates; a suspended one is reactivated where that exists, without asking for a date; an active one
      is renewed inside the margin, as long as it lives. Both others ask for the full lifetime. */
  predicate Suits(s: TrackedSubscription, now: int, action: RenewalAction, requestedExpiry: Option<int>) {
    match action
    case Nothing => false
    case Recreate =>
      && (Dead(s, now) || (s.state == Suspended && !s.policy.supportsReactivate))
      && requestedExpiry == Some(now + s.policy.maxLifetime)
    case Reactivate =>
      !Dead(s, now) && s.state == Suspended && s.policy.supportsReactivate && requestedExpiry == None
    case Renew =>
      && !Dead(s, now) && s.state == Active && s.expiresAt - now <= s.policy.margin
      && requestedExpiry == Some(now + s.policy.maxLifetime)
  }

  ghost predicate CallsFor(s: TrackedSubscription, now: int, op: PlannedOperation) {
    op.id == s.id && !HeldBack(s, now) && Suits(s, now, op.action, op.requestedExpiry)
  }

  lemma OneCallsFor(s: TrackedSubscription, now: int, op: PlannedOperation)
    ensures CallsFor(s, now, op) <==> !Verdict(s, now).Nothing? && op == OperationFor(s, now)
  {
  }

  /** An operation is in the plan if and only if it suits some subscription that nothing holds back. */
  lemma PlannedExactly(subs: seq<TrackedSubscription>, now: int, op: PlannedOperation)
    ensures op in OperationsOf(subs, now) <==> exists s :: s in subs && CallsFor(s, now, op)
  {
    PlanIsPerSubscription(subs, now, op);
    forall s | s in subs ensures CallsFor(s, now, op) <==> !Verdict(s, now).Nothing? && op == OperationFor(s, now) {
      OneCallsFor(s, now, op);
    }
  }

  /** Why a subscription is passed over; giving up comes first, then the retry date. */
  predicate HeldBackFor(s: TrackedSubscription, now: int, reason: SkipReason) {
    var waiting := s.retryNotBefore.Some? && now < s.retryNotBefore.value;
    match reason
    case Abandoned => s.consecutiveFailures >= 8
    case BackingOff => s.consecutiveFailures < 8 && waiting
    case TooSoon =>
      s.consecutiveFailures < 8 && !waiting && s.lastOperationAt.Some? && now < s.lastOperationAt.value + 600_000_000
  }

  lemma OneHeldBackFor(s: TrackedSubscription, now: int, reason: SkipReason)
    ensures HeldBackFor(s, now, reason) <==> WhySkip(s, now) == Some(reason)
    ensures HeldBack(s, now) <==> WhySkip(s, now).Some?
  {
  }

  lemma SkippedExactly(subs: seq<TrackedSubscription>, now: int, k: SkippedOperation)
    ensures k in SkippedOf(subs, now) <==> exists s :: s in subs && k.id == s.id && HeldBackFor(s, now, k.reason)
  {
    SkipsArePerSubscription(subs, now, k);
    forall s | s in subs
      ensures k.id == s.id && HeldBackFor(s, now, k.reason)
              <==> WhySkip(s, now).Some? && k == SkippedOperation(s.id, WhySkip(s, now).value)
    {
      OneHeldBackFor(s, now, k.reason);
    }
  }

  /** A plan follows the order of the subscriptions: planning two groups together is planning one after
      the other. */
  lemma {:induction false} PlanInOrder(a: seq<TrackedSubscription>, b: seq<TrackedSubscription>, now: int)
    ensures OperationsOf(a + b, now) == OperationsOf(a, now) + OperationsOf(b, now)
    ensures SkippedOf(a + b, now) == SkippedOf(a, now) + SkippedOf(b, now)
  {
    if b == [] {
      assert a + b == a;
    } else {
      PlanInOrder(a, b[..|b| - 1], now);
      assert (a + b)[..|a + b| - 1] == a + b[..|b| - 1];
    }
  }

  /** What each platform's figures come to for an active subscription that nothing holds back. */
  lemma RenewalDates(s: TrackedSubscription, now: int)
    requires s.state == Active && !HeldBack(s, now) && now < s.expiresAt
    ensures s.policy == GRAPH_POLICY ==>
              OperationsOf([s], now) == if s.expiresAt - now <= 5_400_000_000
                                        then [PlannedOperation(s.id, Renew, Some(now + 259_200_000_000))] else []
    ensures s.policy == WORKSPACE_EVENTS_POLICY ==>
              OperationsOf([s], now) == if s.expiresAt - now <= 21_600_000_000
                                        then [PlannedOperation(s.id, Renew, Some(now + 604_800_000_000))] else []
  {
    SingletonPlan(s, now);
    OneHeldBackFor(s, now, TooSoon);
  }

  /** Graph has no way to reactivate, Workspace Events has one. */
  lemma SuspensionByPlatform(s: TrackedSubscription, now: int)
    requires s.state == Suspended && !HeldBack(s, now) && now < s.expiresAt
    ensures s.policy == GRAPH_POLICY ==>
              OperationsOf([s], now) == [PlannedOperation(s.id, Recreate, Some(now + 259_200_000_000))]
    ensures s.policy == WORKSPACE_EVENTS_POLICY ==>
              OperationsOf([s], now) == [PlannedOperation(s.id, Reactivate, None)]
  {
    SingletonPlan(s, now);
    OneHeldBackFor(s, now, TooSoon);
  }

  /** A success erases the past, takes the new identifier if there is one, and holds the subscription back
      for ten minutes, then no more. */
  lemma AfterSuccessIsFresh(s: TrackedSubscription, now: int, newExpiry: int, newId: string, later: int)
    ensures var s' := AfterSuccess(s, now, newExpiry, newId);
            && s'.id == (if newId == "" then s.id else newId)
            && s'.expiresAt == newExpiry && s'.state == Active && s'.policy == s.policy
            && (HeldBack(s', later) <==> later < now + 600_000_000)
            && (later < now + 600_000_000 ==> SkippedOf([s'], later) == [SkippedOperation(s'.id, TooSoon)])
  {
    var s' := AfterSuccess(s, now, newExpiry, newId);
    assert [s'][..0] == [];
    assert SkippedOf([], later) == [];
  }

  /** A failure leaves everything else as it was and holds the subscription back until the backoff has
      passed; the eighth in a row holds it back for good. */
  lemma AfterFailureWaits(s: TrackedSubscription, now: int, later: int)
    ensures var s' := AfterFailure(s, now);
            && s' == s.(consecutiveFailures := s'.consecutiveFailures, retryNotBefore := s'.retryNotBefore)
            && (HeldBack(s', later) <==>
                  || s.consecutiveFailures >= 7
                  || later < now + DefaultBackoff(s.consecutiveFailures + 1)
                  || (s.lastOperationAt.Some? && later < s.lastOperationAt.value + 600_000_000))
  {
  }

  // ---------------------------------------------------------------------------
  // Deadlines
  // ---------------------------------------------------------------------------

  /** Something to do lies ahead at this distance: the end of a wait, or the entry into the margin. */
  ghost predicate DueIn(subs: seq<TrackedSubscription>, now: int, wait: int) {
    wait > 0 && exists s :: s in subs && FallsDue(s, now + wait)
  }

  predicate FallsDue(s: TrackedSubscription, instant: int) {
    && s.consecutiveFailures < 8
    && (s.retryNotBefore == Some(instant) || s.expiresAt - s.policy.margin == instant)
  }

  lemma DueIsAhead(subs: seq<TrackedSubscription>, now: int, wait: int)
    ensures DueIn(subs, now, wait) <==> Ahead(subs, now, wait)
  {
    forall s | s in subs ensures FallsDue(s, now + wait) <==> now + wait in DeadlinesOf(s) {
    }
  }

  /** With the default bounds: the sleep is a minute when nothing is ahead, an hour when all that is ahead is
      further; otherwise it is the wait to the nearest, or a minute if that is nearer. */
  lemma SleepIsToTheNearest(subs: seq<TrackedSubscription>, now: int, wait: int)
    ensures (forall d :: !DueIn(subs, now, d)) ==> NextWakeup(subs, now) == 60_000_000
    ensures DueIn(subs, now, wait) && (forall d :: DueIn(subs, now, d) ==> wait <= d) ==>
              NextWakeup(subs, now) == Max(60_000_000, Min(3_600_000_000, wait))
  {
    var waits := Waits(Deadlines(subs), now);
    if waits != [] {
      LeastWaitIsAhead(subs, now);
      DueIsAhead(subs, now, Least(waits));
    }
    if DueIn(subs, now, wait) {
      NearestIsLeast(subs, now, wait);
    }
  }

  lemma LeastReaches(deadlines: seq<int>, now: int, d: int)
    requires d in deadlines && d > now
    ensures Waits(deadlines, now) != [] && Least(Waits(deadlines, now)) <= d - now
  {
    WaitsHoldFuture(deadlines, now, d);
    LeastIsLowerBound(Waits(deadlines, now), d - now);
  }

  lemma NearestIsLeast(subs: seq<TrackedSubscription>, now: int, wait: int)
    requires DueIn(subs, now, wait)
    ensures Waits(Deadlines(subs), now) != [] && Least(Waits(Deadlines(subs), now)) <= wait
  {
    var s :| s in subs && FallsDue(s, now + wait);
    OwnDeadline(subs, s, now + wait);
    LeastReaches(Deadlines(subs), now, now + wait);
  }

  lemma OwnDeadline(subs: seq<TrackedSubscription>, s: TrackedSubscription, d: int)
    requires s in subs && FallsDue(s, d)
    ensures d in Deadlines(subs)
  {
    DeadlinesHoldOwn(subs, s, d);
  }
}
