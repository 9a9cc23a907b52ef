/**
 What a tour of the Meet keeper reports and calls, read off the listing, the plan and the answers
 (connector_service/meet_keeper.py).
 */
module TourReport {
  import opened Wrappers
  import opened Renewal
  import opened Keeper
  import opened Planning
  import opened MeetKeeper

  // ---------------------------------------------------------------------------
  // What is tracked
  // ---------------------------------------------------------------------------

  /** s is what a listed subscription becomes: seven days of life, a margin of one, the state the platform's
      word stands for, an unknown word counting as active, and the keeper's own memory. */
  predicate Tracks(s: TrackedSubscription, a: Listed, memory: Memory) {
    && a.name != "" && s.id == a.name && a.expireTime == Some(s.expiresAt)
    && s.policy == RenewalPolicy(604_800_000_000, 86_400_000_000, true)
    && (s.state == Suspended <==> a.state == "SUSPENDED")
    && (s.state == Expired <==> a.state == "DELETED")
    && s.consecutiveFailures == (if a.name in memory.failures then memory.failures[a.name] else 0)
    && s.lastOperationAt == (if a.name in memory.lastOperation then Some(memory.lastOperation[a.name]) else None)
    && s.retryNotBefore == None
  }

  lemma OneTracked(s: TrackedSubscription, a: Listed, memory: Memory)
    ensures Tracks(s, a, memory) <==> TrackedOf(a, memory) == Some(s)
  {
    assert "SUSPENDED"[0] != "DELETED"[0];
  }

  /** Tracked is what a listed entry with a name and a readable expiry becomes, and nothing else. */
  lemma {:induction false} TrackedExactly(listing: seq<Listed>, memory: Memory, s: TrackedSubscription)
    ensures s in TrackedList(listing, memory) <==> exists a :: a in listing && Tracks(s, a, memory)
  {
    if listing != [] {
      var earlier, last := listing[..|listing| - 1], listing[|listing| - 1];
      assert listing == earlier + [last];
      TrackedExactly(earlier, memory, s);
      OneTracked(s, last, memory);
    }
  }

  // ---------------------------------------------------------------------------
  // Report and calls
  // ---------------------------------------------------------------------------

  ghost predicate Called(calls: seq<Attempt>, name: string, action: RenewalAction, reply: Reply) {
    exists a :: a in calls && a.name == name && a.action == action && a.reply == reply
  }

  ghost predicate RefusedOnce(calls: seq<Attempt>, name: string) {
    exists a :: a in calls && a.name == name && a.reply == Refused
  }

  /** The report names exactly the subscriptions on which such a call was made, with such an answer. */
  ghost predicate Truthful(t: Tour, name: string) {
    && (name in t.outcome.renewed <==> Called(t.attempts, name, Renew, Accepted))
    && (name in t.outcome.reactivated <==> Called(t.attempts, name, Reactivate, Accepted))
    && (name in t.outcome.failed <==> RefusedOnce(t.attempts, name))
  }

  lemma OneMoreCall(calls: seq<Attempt>, a: Attempt, name: string)
    ensures forall action, reply :: Called(calls + [a], name, action, reply) <==>
              Called(calls, name, action, reply) || (a.name == name && a.action == action && a.reply == reply)
    ensures RefusedOnce(calls + [a], name) <==> RefusedOnce(calls, name) || (a.name == name && a.reply == Refused)
  {
    assert forall b :: b in calls + [a] <==> b in calls || b == a;
  }

  lemma CarryIsTruthful(t: Tour, op: PlannedOperation, reply: Reply, canRecreate: bool, now: int, name: string)
    requires Truthful(t, name)
    ensures Truthful(Carry(t, op, reply, canRecreate, now), name)
  {
    OneMoreCall(t.attempts, Attempt(op.id, op.action, now, reply), name);
  }

  lemma {:induction false} TourIsTruthful(t: Tour, ops: seq<PlannedOperation>, replies: nat -> Reply, canRecreate: bool,
                                          now: int, name: string)
    requires Truthful(t, name)
    ensures Truthful(CarryAll(t, ops, replies, canRecreate, now), name)
  {
    if ops != [] {
      var n := |ops| - 1;
      TourIsTruthful(t, ops[..n], replies, canRecreate, now, name);
      CarryIsTruthful(CarryAll(t, ops[..n], replies, canRecreate, now), ops[n], replies(n), canRecreate, now, name);
    }
  }

  /** Renewed, reactivated and failed are reported of exactly the subscriptions whose renewal was accepted,
      whose reactivation was, and of which some call was refused; whether the tour was cut short or not. */
  lemma ReportIsTruthful(memory: Memory, listing: seq<Listed>, replies: nat -> Reply, canRecreate: bool, now: int,
                         name: string)
    ensures Truthful(TourOf(memory, listing, replies, canRecreate, now), name)
  {
    var subs := TrackedList(listing, memory);
    TourIsTruthful(FreshTour(memory, subs, now), OperationsOf(subs, now), replies, canRecreate, now, name);
  }

  /** Operation k of the plan, as a call: none for a recreation that nobody can carry out. */
  predicate MadeFor(a: Attempt, ops: seq<PlannedOperation>, replies: nat -> Reply, canRecreate: bool, now: int, k: nat)
    requires k < |ops|
  {
    && ops[k].action != Nothing && (ops[k].action == Recreate ==> canRecreate)
    && a == Attempt(ops[k].id, ops[k].action, now, replies(k))
  }

  predicate Recreates(ops: seq<PlannedOperation>, name: string, k: nat)
    requires k < |ops|
  {
    ops[k].id == name && ops[k].action == Recreate
  }

  lemma CarryMakes(t: Tour, op: PlannedOperation, reply: Reply, canRecreate: bool, now: int, a: Attempt, name: string)
    requires !t.aborted
    ensures var t' := Carry(t, op, reply, canRecreate, now);
            && (a in t'.attempts <==>
                  || a in t.attempts
                  || (op.action != Nothing && (op.action == Recreate ==> canRecreate)
                      && a == Attempt(op.id, op.action, now, reply)))
            && (name in t'.outcome.toRecreate <==>
                  name in t.outcome.toRecreate || (op.id == name && op.action == Recreate))
            && t'.outcome.inspected == t.outcome.inspected && t'.outcome.skipped == t.outcome.skipped
  {
  }

  ghost predicate SomeMade(a: Attempt, ops: seq<PlannedOperation>, replies: nat -> Reply, canRecreate: bool, now: int,
                           n: nat)
    requires n <= |ops|
  {
    exists k :: 0 <= k < n && MadeFor(a, ops, replies, canRecreate, now, k)
  }

  ghost predicate SomeRecreates(ops: seq<PlannedOperation>, name: string, n: nat)
    requires n <= |ops|
  {
    exists k :: 0 <= k < n && Recreates(ops, name, k)
  }

  lemma OneMoreMade(a: Attempt, ops: seq<PlannedOperation>, replies: nat -> Reply, canRecreate: bool, now: int, n: nat)
    requires 0 < n <= |ops|
    ensures SomeMade(a, ops, replies, canRecreate, now, n) <==>
              SomeMade(a, ops, replies, canRecreate, now, n - 1) || MadeFor(a, ops, replies, canRecreate, now, n - 1)
  {
  }

  lemma OneMoreRecreates(ops: seq<PlannedOperation>, name: string, n: nat)
    requires 0 < n <= |ops|
    ensures SomeRecreates(ops, name, n) <==> SomeRecreates(ops, name, n - 1) || Recreates(ops, name, n - 1)
  {
  }

  ghost predicate FollowsPlan(t: Tour, ops: seq<PlannedOperation>, n: nat, replies: nat -> Reply, canRecreate: bool,
                              now: int, a: Attempt, name: string)
    requires n <= |ops|
  {
    && (a in t.attempts <==> SomeMade(a, ops, replies, canRecreate, now, n))
    && (name in t.outcome.toRecreate <==> SomeRecreates(ops, name, n))
  }

  lemma CarryFollowsPlan(t: Tour, ops: seq<PlannedOperation>, n: nat, replies: nat -> Reply, canRecreate: bool,
                         now: int, a: Attempt, name: string)
    requires 0 < n <= |ops| && !t.aborted && FollowsPlan(t, ops, n - 1, replies, canRecreate, now, a, name)
    ensures FollowsPlan(Carry(t, ops[n - 1], replies(n - 1), canRecreate, now), ops, n, replies, canRecreate, now,
                        a, name)
  {
    CarryMakes(t, ops[n - 1], replies(n - 1), canRecreate, now, a, name);
    OneMoreMade(a, ops, replies, canRecreate, now, n);
    OneMoreRecreates(ops, name, n);
  }

  lemma {:induction false} CallsSoFar(t: Tour, ops: seq<PlannedOperation>, n: nat, replies: nat -> Reply,
                                      canRecreate: bool, now: int, a: Attempt, name: string)
    requires n <= |ops| && t.attempts == [] && t.outcome.toRecreate == []
    requires !CarryAll(t, ops[..n], replies, canRecreate, now).aborted
    ensures FollowsPlan(CarryAll(t, ops[..n], replies, canRecreate, now), ops, n, replies, canRecreate, now, a, name)
  {
    if n > 0 {
      CarryAllGoesOn(t, ops, n - 1, replies, canRecreate, now);
      var before := CarryAll(t, ops[..n - 1], replies, canRecreate, now);
      assert !before.aborted;
      CallsSoFar(t, ops, n - 1, replies, canRecreate, now, a, name);
      CarryFollowsPlan(before, ops, n, replies, canRecreate, now, a, name);
    } else {
      assert ops[..0] == [];
    }
  }

  lemma {:induction false} HeaderStays(t: Tour, ops: seq<PlannedOperation>, replies: nat -> Reply, canRecreate: bool,
                                       now: int)
    ensures var t' := CarryAll(t, ops, replies, canRecreate, now);
            t'.outcome.inspected == t.outcome.inspected && t'.outcome.skipped == t.outcome.skipped
  {
    if ops != [] {
      HeaderStays(t, ops[..|ops| - 1], replies, canRecreate, now);
    }
  }

  /** A completed tour makes one call for each operation of its plan, with its answer, save the recreations
      that nobody can carry out, and reports all recreations as such. */
  lemma CompletedTourFollowsPlan(memory: Memory, listing: seq<Listed>, replies: nat -> Reply, canRecreate: bool,
                                 now: int, a: Attempt, name: string)
    requires !TourOf(memory, listing, replies, canRecreate, now).aborted
    ensures var ops := OperationsOf(TrackedList(listing, memory), now);
            FollowsPlan(TourOf(memory, listing, replies, canRecreate, now), ops, |ops|, replies, canRecreate, now,
                        a, name)
  {
    var subs := TrackedList(listing, memory);
    var ops := OperationsOf(subs, now);
    assert ops[..|ops|] == ops;
    CallsSoFar(FreshTour(memory, subs, now), ops, |ops|, replies, canRecreate, now, a, name);
  }

  /** Every tour counts what it tracks and reports what the plan passes over. */
  lemma TourCountsAndSkips(memory: Memory, listing: seq<Listed>, replies: nat -> Reply, canRecreate: bool, now: int)
    ensures var outcome := TourOf(memory, listing, replies, canRecreate, now).outcome;
            && outcome.inspected == |TrackedList(listing, memory)|
            && outcome.skipped == SkippedOf(TrackedList(listing, memory), now)
  {
    var subs := TrackedList(listing, memory);
    HeaderStays(FreshTour(memory, subs, now), OperationsOf(subs, now), replies, canRecreate, now);
  }

  /** Lists are written in the order of the listing and of the plan: each entry only adds at the end. */
  lemma {:induction false} TrackedInOrder(a: seq<Listed>, b: seq<Listed>, memory: Memory)
    ensures TrackedList(a + b, memory) == TrackedList(a, memory) + TrackedList(b, memory)
  {
    if b == [] {
      assert a + b == a;
    } else {
      TrackedInOrder(a, b[..|b| - 1], memory);
      assert (a + b)[..|a + b| - 1] == a + b[..|b| - 1];
    }
  }

  lemma ReportsAreAppended(t: Tour, op: PlannedOperation, reply: Reply, canRecreate: bool, now: int)
    ensures var t' := Carry(t, op, reply, canRecreate, now);
            && t.attempts <= t'.attempts
            && t.outcome.renewed <= t'.outcome.renewed && t.outcome.reactivated <= t'.outcome.reactivated
            && t.outcome.toRecreate <= t'.outcome.toRecreate && t.outcome.failed <= t'.outcome.failed
  {
  }
}
