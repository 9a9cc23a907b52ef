/**
 Three hours between tours is as far as the margin of a day goes: one microsecond more, and eight
 tours no longer fit between the entry into the margin and the expiry.
 */
module MeetKeeperGap {
  import opened Wrappers
  import opened Renewal
  import opened Keeper
  import opened MeetKeeper
  import opened MeetKeeperRuns

  const GAP := MAX_GAP + 1
  const NAME := "s"
  const EXPIRY := DAY + 1
  const LISTING := [Listed(NAME, Some(EXPIRY), "ACTIVE")]

  function RefusedAt(now: int): TourInput {
    TourInput(now, Some(LISTING), i => Refused)
  }

  /** The first n of tours one gap apart, in which every call is refused. */
  function Refusals(n: nat): seq<TourInput> {
    if n == 0 then [] else Refusals(n - 1) + [RefusedAt((n - 1) * GAP)]
  }

  lemma LoneTracked(memory: Memory)
    requires memory.LastOf(NAME).None?
    ensures TrackedList(LISTING, memory)
            == [TrackedSubscription(NAME, EXPIRY, MEET_POLICY, Active, None, memory.FailuresOf(NAME), None)]
  {
    assert LISTING[..0] == [];
  }

  lemma LoneCarry(t: Tour, op: PlannedOperation, now: int)
    ensures CarryAll(t, [op], i => Refused, false, now) == Carry(t, op, Refused, false, now)
  {
    assert [op][..0] == [];
  }

  /** A tour over the lone subscription, whose call, if any, is refused. */
  lemma RefusedTour(memory: Memory, now: int)
    requires memory.LastOf(NAME).None? && memory.FailuresOf(NAME) < MAX_CONSECUTIVE_FAILURES
    ensures var t := RunTour(memory, RefusedAt(now), false);
            && !t.aborted && t.outcome.renewed == [] && t.memory.LastOf(NAME).None?
            && (t.memory.FailuresOf(NAME) == memory.FailuresOf(NAME) + if 1 <= now < EXPIRY then 1 else 0)
            && (NAME in t.outcome.toRecreate <==> now >= EXPIRY)
  {
    LoneTracked(memory);
    var subs := TrackedList(LISTING, memory);
    var s := subs[0];
    SingletonPlan(s, now);
    var start := FreshTour(memory, subs, now);
    if !Verdict(s, now).Nothing? {
      LoneCarry(start, OperationFor(s, now), now);
    }
  }

  lemma LastRefusal(n: nat)
    requires n > 0
    ensures var tour := RunTour(MemoryAfter(Refusals(n - 1), false), RefusedAt((n - 1) * GAP), false);
            && MemoryAfter(Refusals(n), false) == tour.memory
            && ExpiryAfter(Refusals(n), false, NAME, EXPIRY)
               == if NAME in tour.outcome.renewed then (n - 1) * GAP + MAX_TTL
                  else ExpiryAfter(Refusals(n - 1), false, NAME, EXPIRY)
  {
    assert |Refusals(n)| - 1 == |Refusals(n - 1)|;
    assert Refusals(n)[..|Refusals(n)| - 1] == Refusals(n - 1);
  }

  predicate Inside(now: int) { 1 <= now < EXPIRY }

  lemma GapsStayInside(k: nat)
    requires 0 < k < MAX_CONSECUTIVE_FAILURES
    ensures Inside(k * GAP)
  {
  }

  ghost predicate Counted(memory: Memory, failures: nat) {
    memory.LastOf(NAME).None? && memory.FailuresOf(NAME) == failures
  }

  lemma RefusedInside(memory: Memory, now: int, failures: nat)
    requires Counted(memory, failures) && failures < MAX_CONSECUTIVE_FAILURES && (Inside(now) || now == 0)
    ensures var t := RunTour(memory, RefusedAt(now), false);
            Counted(t.memory, if now == 0 then failures else failures + 1) && t.outcome.renewed == []
  {
    RefusedTour(memory, now);
  }

  ghost predicate Stands(n: nat, failures: nat) {
    Counted(MemoryAfter(Refusals(n), false), failures) && ExpiryAfter(Refusals(n), false, NAME, EXPIRY) == EXPIRY
  }

  lemma OneMoreRefusal(n: nat, failures: nat)
    requires Stands(n, failures) && failures < MAX_CONSECUTIVE_FAILURES && (n == 0 || Inside(n * GAP))
    ensures Stands(n + 1, if n == 0 then failures else failures + 1)
  {
    LastRefusal(n + 1);
    RefusedInside(MemoryAfter(Refusals(n), false), n * GAP, failures);
  }

  lemma NoneBefore()
    ensures Stands(0, 0)
  {
  }

  lemma FirstRefusal()
    ensures Stands(1, 0)
  {
    NoneBefore();
    OneMoreRefusal(0, 0);
  }

  lemma NextRefusal(n: nat, failures: nat)
    requires 0 < n < MAX_CONSECUTIVE_FAILURES && failures == n - 1 && Stands(n, failures)
    ensures Stands(n + 1, failures + 1)
  {
    GapsStayInside(n);
    OneMoreRefusal(n, failures);
  }

  /** Before the expiry every tour but the first adds a failure. */
  lemma {:induction false} FailuresAfter(n: nat, failures: nat)
    requires 1 <= n <= MAX_CONSECUTIVE_FAILURES && failures == n - 1
    ensures Stands(n, failures)
  {
    if n == 1 {
      FirstRefusal();
    } else {
      FailuresAfter(n - 1, failures - 1);
      NextRefusal(n - 1, failures - 1);
    }
  }

  lemma {:induction false} RefusalsAt(n: nat, k: nat)
    requires k < n
    ensures |Refusals(n)| == n && Refusals(n)[k] == RefusedAt(k * GAP) && Refusals(n)[..k] == Refusals(k)
  {
    if k < n - 1 {
      RefusalsAt(n - 1, k);
      assert Refusals(n)[..k] == Refusals(n - 1)[..k];
    } else {
      if n > 1 { RefusalsAt(n - 1, 0); }
      assert Refusals(n)[..n - 1] == Refusals(n - 1);
    }
  }

  lemma RefusalsServe(k: nat)
    requires k <= MAX_CONSECUTIVE_FAILURES
    ensures |Refusals(9)| == 9 && Serves(Refusals(9), false, NAME, EXPIRY, k) && Completed(Refusals(9), false, k)
  {
    RefusalsAt(9, k);
    if k == 0 { NoneBefore(); } else { FailuresAfter(k, k - 1); }
    RefusedTour(MemoryAfter(Refusals(k), false), k * GAP);
    assert LISTING[0] in LISTING;
  }

  /** Nine tours that meet every condition of ActiveSubscriptionSurvives but are a microsecond further
      apart: the last one finds the subscription expired, although only seven failures were counted. */
  lemma ThreeHoursIsTheLimit() returns (tours: seq<TourInput>)
    ensures |tours| == 9 && tours[0].now < EXPIRY - MEET_POLICY.margin
    ensures forall i :: 0 <= i < 9 ==>
              && Serves(tours, false, NAME, EXPIRY, i) && Completed(tours, false, i)
              && tours[i].now == i * (MAX_GAP + 1)
    ensures var memory := MemoryAfter(tours[..8], false);
            && memory.FailuresOf(NAME) == MAX_CONSECUTIVE_FAILURES - 1
            && NAME in RunTour(memory, tours[8], false).outcome.toRecreate
  {
    tours := Refusals(9);
    forall i | 0 <= i < 9
      ensures |tours| == 9 && Serves(tours, false, NAME, EXPIRY, i) && Completed(tours, false, i)
              && tours[i].now == i * GAP
    {
      RefusalsServe(i);
      RefusalsAt(9, i);
    }
    RefusalsAt(9, 8);
    RefusalsAt(9, 0);
    FailuresAfter(8, 7);
    RefusedTour(MemoryAfter(Refusals(8), false), 8 * GAP);
  }
}
