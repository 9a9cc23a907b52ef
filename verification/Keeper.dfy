/**
 Several subscriptions over time: what to do at this tour, what a success or a failure changes,
 when to come back (connector_service/subscription_keeper.py).
 */
module Keeper {
  import opened Wrappers
  import opened Renewal

  const MIN_INTERVAL_BETWEEN_OPERATIONS := 10 * MINUTE
  const MAX_CONSECUTIVE_FAILURES := 8

  datatype TrackedSubscription = TrackedSubscription(
    id: string,
    expiresAt: int,
    policy: RenewalPolicy,
    state: SubscriptionState,
    lastOperationAt: Option<int>,
    consecutiveFailures: nat,
    retryNotBefore: Option<int>)
  {
    predicate GivenUp() { consecutiveFailures >= MAX_CONSECUTIVE_FAILURES }

    /** The instant at which the renewal margin is entered. */
    function MarginEntry(): int { expiresAt - policy.margin }
  }

  datatype PlannedOperation = PlannedOperation(id: string, action: RenewalAction, requestedExpiry: Option<int>)

  datatype SkipReason = Abandoned | BackingOff | TooSoon

  datatype SkippedOperation = SkippedOperation(id: string, reason: SkipReason)

  datatype Plan = Plan(operations: seq<PlannedOperation>, skipped: seq<SkippedOperation>)

  function WhySkip(s: TrackedSubscription, now: int): Option<SkipReason> {
    if s.GivenUp() then Some(Abandoned)
    else if s.retryNotBefore.Some? && now < s.retryNotBefore.value then Some(BackingOff)
    else if s.lastOperationAt.Some? && now - s.lastOperationAt.value < MIN_INTERVAL_BETWEEN_OPERATIONS then
      Some(TooSoon)
    else None
  }

  /** The action decided for one subscription; a reason to skip wins over any decision. */
  function Verdict(s: TrackedSubscription, now: int): RenewalAction {
    if WhySkip(s, now).Some? then Nothing else Decide(s.state, s.expiresAt, now, s.policy)
  }

  function OperationFor(s: TrackedSubscription, now: int): PlannedOperation {
    var action := Verdict(s, now);
    PlannedOperation(s.id, action, if action.Reactivate? then None else Some(s.policy.NextExpiry(now)))
  }

  function OperationsOf(subs: seq<TrackedSubscription>, now: int): seq<PlannedOperation> {
    if subs == [] then [] else
      var earlier, last := OperationsOf(subs[..|subs| - 1], now), subs[|subs| - 1];
      if Verdict(last, now).Nothing? then earlier else earlier + [OperationFor(last, now)]
  }

  function SkippedOf(subs: seq<TrackedSubscription>, now: int): seq<SkippedOperation> {
    if subs == [] then [] else
      var earlier, last := SkippedOf(subs[..|subs| - 1], now), subs[|subs| - 1];
      match WhySkip(last, now)
      case None => earlier
      case Some(reason) => earlier + [SkippedOperation(last.id, reason)]
  }

  method MakePlan(subs: seq<TrackedSubscription>, now: int) returns (p: Plan)
    ensures p == Plan(OperationsOf(subs, now), SkippedOf(subs, now))
  {
    var operations, skipped := [], [];
    for i := 0 to |subs|
      invariant operations == OperationsOf(subs[..i], now)
      invariant skipped == SkippedOf(subs[..i], now)
    {
      assert subs[..i + 1][..i] == subs[..i];
      var s := subs[i];
      var report := WhySkip(s, now);
      if report.Some? {
        skipped := skipped + [SkippedOperation(s.id, report.value)];
        continue;
      }
      var action := Decide(s.state, s.expiresAt, now, s.policy);
      if action.Nothing? {
        continue;
      }
      operations := operations + [PlannedOperation(
        s.id, action, if action.Reactivate? then None else Some(s.policy.NextExpiry(now)))];
    }
    assert subs[..|subs|] == subs;
    p := Plan(operations, skipped);
  }

  /** A plan holds exactly the operations its subscriptions call for one by one: no subscription,
      whatever its history, adds to or removes from what another one gets. */
  lemma {:induction false} PlanIsPerSubscription(subs: seq<TrackedSubscription>, now: int, op: PlannedOperation)
    ensures op in OperationsOf(subs, now)
            <==> exists s :: s in subs && !Verdict(s, now).Nothing? && op == OperationFor(s, now)
  {
    if subs != [] {
      var earlier, last := subs[..|subs| - 1], subs[|subs| - 1];
      assert subs == earlier + [last];
      PlanIsPerSubscription(earlier, now, op);
    }
  }

  /** In the same way a plan reports as skipped exactly the subscriptions with a reason to skip. */
  lemma {:induction false} SkipsArePerSubscription(subs: seq<TrackedSubscription>, now: int, k: SkippedOperation)
    ensures k in SkippedOf(subs, now)
            <==> exists s :: s in subs && WhySkip(s, now).Some? && k == SkippedOperation(s.id, WhySkip(s, now).value)
  {
    if subs != [] {
      var earlier, last := subs[..|subs| - 1], subs[|subs| - 1];
      assert subs == earlier + [last];
      SkipsArePerSubscription(earlier, now, k);
    }
  }

  predicate DistinctIds(subs: seq<TrackedSubscription>) {
    forall i, j :: 0 <= i < j < |subs| ==> subs[i].id != subs[j].id
  }

  ghost predicate NamesOnce(ops: seq<PlannedOperation>) {
    forall i, j :: 0 <= i < j < |ops| ==> ops[i].id != ops[j].id
  }

  ghost predicate SkipsOnce(skipped: seq<SkippedOperation>) {
    forall i, j :: 0 <= i < j < |skipped| ==> skipped[i].id != skipped[j].id
  }

  lemma {:induction false} OperationsNameEachOnce(subs: seq<TrackedSubscription>, now: int)
    requires DistinctIds(subs)
    ensures NamesOnce(OperationsOf(subs, now))
  {
    if subs != [] {
      var earlier, last := subs[..|subs| - 1], subs[|subs| - 1];
      OperationsNameEachOnce(earlier, now);
      var ops := OperationsOf(earlier, now);
      forall i | 0 <= i < |ops| ensures ops[i].id != last.id {
        PlanIsPerSubscription(earlier, now, ops[i]);
      }
    }
  }

  lemma {:induction false} SkipsNameEachOnce(subs: seq<TrackedSubscription>, now: int)
    requires DistinctIds(subs)
    ensures SkipsOnce(SkippedOf(subs, now))
  {
    if subs != [] {
      var earlier, last := subs[..|subs| - 1], subs[|subs| - 1];
      SkipsNameEachOnce(earlier, now);
      var skipped := SkippedOf(earlier, now);
      forall i | 0 <= i < |skipped| ensures skipped[i].id != last.id {
        SkipsArePerSubscription(earlier, now, skipped[i]);
      }
    }
  }

  lemma SkippedIsNotPlanned(subs: seq<TrackedSubscription>, now: int, op: PlannedOperation, k: SkippedOperation)
    requires DistinctIds(subs) && op in OperationsOf(subs, now) && k in SkippedOf(subs, now)
    ensures op.id != k.id
  {
    PlanIsPerSubscription(subs, now, op);
    SkipsArePerSubscription(subs, now, k);
    var s :| s in subs && !Verdict(s, now).Nothing? && op == OperationFor(s, now);
    var t :| t in subs && WhySkip(t, now).Some? && k == SkippedOperation(t.id, WhySkip(t, now).value);
    assert s != t;
  }

  /** With distinct identifiers the plan names each subscription at most once: as an operation, or as
      skipped, never as both. */
  lemma PlanNamesEachOnce(subs: seq<TrackedSubscription>, now: int)
    requires DistinctIds(subs)
    ensures NamesOnce(OperationsOf(subs, now)) && SkipsOnce(SkippedOf(subs, now))
    ensures forall op, k :: op in OperationsOf(subs, now) && k in SkippedOf(subs, now) ==> op.id != k.id
  {
    OperationsNameEachOnce(subs, now);
    SkipsNameEachOnce(subs, now);
    forall op, k | op in OperationsOf(subs, now) && k in SkippedOf(subs, now) ensures op.id != k.id {
      SkippedIsNotPlanned(subs, now, op, k);
    }
  }

  lemma SingletonPlan(s: TrackedSubscription, now: int)
    ensures OperationsOf([s], now) == if Verdict(s, now).Nothing? then [] else [OperationFor(s, now)]
  {
    assert [s][..0] == [];
  }

  // ---------------------------------------------------------------------------
  // After an operation
  // ---------------------------------------------------------------------------

  function AfterSuccess(s: TrackedSubscription, now: int, newExpiry: int, newId: string): TrackedSubscription {
    s.(id := if newId != "" then newId else s.id,
       expiresAt := newExpiry,
       state := Active,
       lastOperationAt := Some(now),
       consecutiveFailures := 0,
       retryNotBefore := None)
  }

  function AfterFailure(s: TrackedSubscription, now: int): TrackedSubscription {
    var failures := s.consecutiveFailures + 1;
    s.(consecutiveFailures := failures,
       retryNotBefore := Some(now + DefaultBackoff(failures)))
  }

  // ---------------------------------------------------------------------------
  // When to wake up again
  // ---------------------------------------------------------------------------

  const WAKE_FLOOR := 1 * MINUTE
  const WAKE_CEILING := 1 * HOUR

  function DeadlinesOf(s: TrackedSubscription): seq<int> {
    if s.GivenUp() then []
    else (if s.retryNotBefore.Some? then [s.retryNotBefore.value] else []) + [s.MarginEntry()]
  }

  function Deadlines(subs: seq<TrackedSubscription>): seq<int> {
    if subs == [] then [] else Deadlines(subs[..|subs| - 1]) + DeadlinesOf(subs[|subs| - 1])
  }

  /** The waits to the deadlines that are still ahead. */
  function Waits(deadlines: seq<int>, now: int): seq<int> {
    if deadlines == [] then [] else
      var earlier, last := Waits(deadlines[..|deadlines| - 1], now), deadlines[|deadlines| - 1];
      if last > now then earlier + [last - now] else earlier
  }

  function Least(s: seq<int>): int
    requires s != []
  {
    if |s| == 1 then s[0] else Min(Least(s[..|s| - 1]), s[|s| - 1])
  }

  function NextWakeupWithin(subs: seq<TrackedSubscription>, now: int, floor: int, ceiling: int): int {
    var waits := Waits(Deadlines(subs), now);
    if waits == [] then floor else Max(floor, Min(ceiling, Least(waits)))
  }

  /** `next_wakeup` with its default floor and ceiling. */
  function NextWakeup(subs: seq<TrackedSubscription>, now: int): int {
    NextWakeupWithin(subs, now, WAKE_FLOOR, WAKE_CEILING)
  }

  method ComputeWaits(deadlines: seq<int>, now: int) returns (waits: seq<int>, least: int)
    ensures waits == Waits(deadlines, now)
    ensures waits != [] ==> least == Least(waits)
  {
    waits, least := [], 0;
    for i := 0 to |deadlines|
      invariant waits == Waits(deadlines[..i], now)
      invariant waits != [] ==> least == Least(waits)
    {
      assert deadlines[..i + 1][..i] == deadlines[..i];
      if deadlines[i] > now {
        var wait := deadlines[i] - now;
        assert (waits + [wait])[..|waits|] == waits;
        least := if waits == [] then wait else Min(least, wait);
        waits := waits + [wait];
      }
    }
    assert deadlines[..|deadlines|] == deadlines;
  }

  method ComputeNextWakeup(subs: seq<TrackedSubscription>, now: int, floor: int, ceiling: int) returns (sleep: int)
    ensures sleep == NextWakeupWithin(subs, now, floor, ceiling)
  {
    var deadlines := [];
    for i := 0 to |subs|
      invariant deadlines == Deadlines(subs[..i])
    {
      assert subs[..i + 1][..i] == subs[..i];
      var s := subs[i];
      if s.GivenUp() {
        continue;
      }
      if s.retryNotBefore.Some? {
        deadlines := deadlines + [s.retryNotBefore.value];
      }
      deadlines := deadlines + [s.MarginEntry()];
    }
    assert subs[..|subs|] == subs;
    var waits, least := ComputeWaits(deadlines, now);
    if waits == [] {
      return floor;
    }
    sleep := Max(floor, Min(ceiling, least));
  }

  lemma {:induction false} LeastIsLowerBound(s: seq<int>, x: int)
    requires x in s
    ensures Least(s) <= x
  {
    var n := |s| - 1;
    if n > 0 && x in s[..n] {
      LeastIsLowerBound(s[..n], x);
    }
  }

  lemma {:induction false} WaitsHoldFuture(deadlines: seq<int>, now: int, d: int)
    requires d in deadlines && d > now
    ensures d - now in Waits(deadlines, now)
  {
    var n := |deadlines| - 1;
    if d != deadlines[n] {
      assert d in deadlines[..n];
      WaitsHoldFuture(deadlines[..n], now, d);
    }
  }

  lemma {:induction false} DeadlinesHoldOwn(subs: seq<TrackedSubscription>, s: TrackedSubscription, d: int)
    requires s in subs && d in DeadlinesOf(s)
    ensures d in Deadlines(subs)
  {
    var n := |subs| - 1;
    if s != subs[n] {
      assert s in subs[..n];
      DeadlinesHoldOwn(subs[..n], s, d);
    }
  }

  lemma {:induction false} LeastIsOneOfThem(s: seq<int>)
    requires s != []
    ensures Least(s) in s
  {
    if |s| > 1 {
      LeastIsOneOfThem(s[..|s| - 1]);
    }
  }

  lemma {:induction false} WaitsAreDeadlines(deadlines: seq<int>, now: int, wait: int)
    requires wait in Waits(deadlines, now)
    ensures wait > 0 && now + wait in deadlines
  {
    var n := |deadlines| - 1;
    if wait in Waits(deadlines[..n], now) {
      WaitsAreDeadlines(deadlines[..n], now, wait);
    }
  }

  lemma {:induction false} DeadlinesAreOwned(subs: seq<TrackedSubscription>, d: int) returns (s: TrackedSubscription)
    requires d in Deadlines(subs)
    ensures s in subs && d in DeadlinesOf(s)
  {
    var n := |subs| - 1;
    if d in DeadlinesOf(subs[n]) {
      s := subs[n];
    } else {
      s := DeadlinesAreOwned(subs[..n], d);
    }
  }

  /** A deadline of the set is ahead at this distance. */
  ghost predicate Ahead(subs: seq<TrackedSubscription>, now: int, wait: int) {
    wait > 0 && exists s :: s in subs && now + wait in DeadlinesOf(s)
  }

  lemma LeastWaitIsAhead(subs: seq<TrackedSubscription>, now: int)
    requires Waits(Deadlines(subs), now) != []
    ensures Ahead(subs, now, Least(Waits(Deadlines(subs), now)))
  {
    var wait := Least(Waits(Deadlines(subs), now));
    LeastIsOneOfThem(Waits(Deadlines(subs), now));
    WaitsAreDeadlines(Deadlines(subs), now, wait);
    var s := DeadlinesAreOwned(subs, now + wait);
  }

  lemma FutureIsWaitedFor(deadlines: seq<int>, now: int, d: int)
    requires d in deadlines && d > now
    ensures Waits(deadlines, now) != []
  {
    WaitsHoldFuture(deadlines, now, d);
  }

  lemma AheadIsWaitedFor(subs: seq<TrackedSubscription>, now: int, s: TrackedSubscription, wait: int)
    requires s in subs && wait > 0 && now + wait in DeadlinesOf(s)
    ensures Waits(Deadlines(subs), now) != []
  {
    var d := now + wait;
    DeadlinesHoldOwn(subs, s, d);
    FutureIsWaitedFor(Deadlines(subs), now, d);
  }

  /** The sleep never leaves its bounds, and inside them it is the wait to a deadline ahead. The floor
      wins over a ceiling below it. */
  lemma WakeupIsForADeadline(subs: seq<TrackedSubscription>, now: int, floor: int, ceiling: int)
    ensures var sleep := NextWakeupWithin(subs, now, floor, ceiling);
            && floor <= sleep <= Max(floor, ceiling)
            && (sleep > floor ==> exists wait :: Ahead(subs, now, wait) && sleep == Min(ceiling, wait))
            && (sleep == floor ==>
                  || (forall wait :: !Ahead(subs, now, wait))
                  || exists wait :: Ahead(subs, now, wait) && Min(ceiling, wait) <= floor)
  {
    if Waits(Deadlines(subs), now) != [] {
      LeastWaitIsAhead(subs, now);
    } else {
      forall wait ensures !Ahead(subs, now, wait) {
        if Ahead(subs, now, wait) {
          var s :| s in subs && now + wait in DeadlinesOf(s);
          AheadIsWaitedFor(subs, now, s, wait);
        }
      }
    }
  }

  /** A useful deadline of a subscription still followed is overslept only when the floor is longer. */
  lemma WakeupHonoursDeadline(subs: seq<TrackedSubscription>, now: int, floor: int, ceiling: int,
                              s: TrackedSubscription, d: int)
    requires s in subs && d in DeadlinesOf(s) && now < d
    ensures now + NextWakeupWithin(subs, now, floor, ceiling) <= Max(now + floor, d)
  {
    DeadlinesHoldOwn(subs, s, d);
    WaitsHoldFuture(Deadlines(subs), now, d);
    LeastIsLowerBound(Waits(Deadlines(subs), now), d - now);
  }
}
