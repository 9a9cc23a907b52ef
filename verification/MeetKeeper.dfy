/**
 The executor that keeps the Meet subscriptions alive (connector_service/meet_keeper.py): read what
 Google lists, plan, carry out, remember. Unlike the driver of module KeepAlive it keeps its own
 failure counts and never sets a retry date.
 */
module MeetKeeper {
  import opened Wrappers
  import opened Renewal
  import opened Keeper

  const MAX_TTL := 7 * DAY
  const MEET_POLICY := RenewalPolicy(MAX_TTL, 1 * DAY, true)

  /** A subscription as the API lists it: the name may be empty, the expiry missing or unreadable,
      the state (upper-cased) any word. */
  datatype Listed = Listed(name: string, expireTime: Option<int>, state: string)

  function StateOf(state: string): SubscriptionState {
    if state == "SUSPENDED" then Suspended
    else if state == "DELETED" then Expired
    else Active
  }

  /** What the keeper remembers from tour to tour. */
  datatype Memory = Memory(failures: map<string, nat>, lastOperation: map<string, int>) {
    function FailuresOf(name: string): nat { if name in failures then failures[name] else 0 }

    function LastOf(name: string): Option<int> { if name in lastOperation then Some(lastOperation[name]) else None }

    predicate AgreesOn(other: Memory, name: string) {
      FailuresOf(name) == other.FailuresOf(name) && LastOf(name) == other.LastOf(name)
    }
  }

  function TrackedOf(a: Listed, memory: Memory): Option<TrackedSubscription> {
    if a.name == "" || a.expireTime.None? then None
    else Some(TrackedSubscription(a.name, a.expireTime.value, MEET_POLICY, StateOf(a.state),
                                  memory.LastOf(a.name), memory.FailuresOf(a.name), None))
  }

  function TrackedList(listing: seq<Listed>, memory: Memory): seq<TrackedSubscription> {
    if listing == [] then [] else
      var earlier, last := TrackedList(listing[..|listing| - 1], memory), TrackedOf(listing[|listing| - 1], memory);
      if last.Some? then earlier + [last.value] else earlier
  }

  /** The answer to a client call: it returns, raises the client's own error, or raises another one
      (a token refused, say), which the tour does not catch. */
  datatype Reply = Accepted | Refused | Raised

  datatype KeepOutcome = KeepOutcome(
    inspected: nat,
    renewed: seq<string>,
    reactivated: seq<string>,
    toRecreate: seq<string>,
    failed: seq<string>,
    skipped: seq<SkippedOperation>)

  datatype Attempt = Attempt(name: string, action: RenewalAction, at: int, reply: Reply)

  datatype Tour = Tour(memory: Memory, outcome: KeepOutcome, attempts: seq<Attempt>, aborted: bool)

  /** One operation of the plan. Without a `recreate` callback a recreation is reported, not tried. */
  function Carry(t: Tour, op: PlannedOperation, reply: Reply, canRecreate: bool, now: int): Tour {
    if t.aborted then t else
      var out := if op.action.Recreate? then t.outcome.(toRecreate := t.outcome.toRecreate + [op.id]) else t.outcome;
      if op.action.Nothing? || (op.action.Recreate? && !canRecreate) then t.(outcome := out) else
        var attempts := t.attempts + [Attempt(op.id, op.action, now, reply)];
        match reply
        case Accepted =>
          Tour(Memory(t.memory.failures - {op.id}, t.memory.lastOperation[op.id := now]),
               if op.action.Renew? then out.(renewed := out.renewed + [op.id])
               else if op.action.Reactivate? then out.(reactivated := out.reactivated + [op.id])
               else out,
               attempts, false)
        case Refused =>
          Tour(t.memory.(failures := t.memory.failures[op.id := t.memory.FailuresOf(op.id) + 1]),
               out.(failed := out.failed + [op.id]), attempts, false)
        case Raised =>
          Tour(t.memory, out, attempts, true)
  }

  function CarryAll(t: Tour, ops: seq<PlannedOperation>, replies: nat -> Reply, canRecreate: bool, now: int): Tour {
    if ops == [] then t else
      var n := |ops| - 1;
      Carry(CarryAll(t, ops[..n], replies, canRecreate, now), ops[n], replies(n), canRecreate, now)
  }

  function FreshTour(memory: Memory, subs: seq<TrackedSubscription>, now: int): Tour {
    Tour(memory, KeepOutcome(|subs|, [], [], [], [], SkippedOf(subs, now)), [], false)
  }

  function TourOf(memory: Memory, listing: seq<Listed>, replies: nat -> Reply, canRecreate: bool, now: int): Tour {
    var subs := TrackedList(listing, memory);
    CarryAll(FreshTour(memory, subs, now), OperationsOf(subs, now), replies, canRecreate, now)
  }

  /** The platform's side: every call it received, with its answer. */
  class WorkspaceEventsClient {
    var calls: seq<Attempt>

    constructor ()
      ensures calls == []
    {
      calls := [];
    }

    method Call(name: string, action: RenewalAction, now: int, answer: Reply) returns (reply: Reply)
      modifies this
      ensures reply == answer && calls == old(calls) + [Attempt(name, action, now, answer)]
    {
      calls := calls + [Attempt(name, action, now, answer)];
      reply := answer;
    }
  }

  class MeetSubscriptionKeeper {
    var failures: map<string, nat>
    var lastOperation: map<string, int>
    const client: WorkspaceEventsClient
    const canRecreate: bool

    constructor (client: WorkspaceEventsClient, canRecreate: bool)
      ensures this.client == client && this.canRecreate == canRecreate && Remembered() == Memory(map[], map[])
    {
      this.client := client;
      this.canRecreate := canRecreate;
      failures, lastOperation := map[], map[];
    }

    function Remembered(): Memory
      reads this
    {
      Memory(failures, lastOperation)
    }

    method Inspect(listing: seq<Listed>) returns (subs: seq<TrackedSubscription>)
      ensures subs == TrackedList(listing, Remembered())
    {
      subs := [];
      for i := 0 to |listing|
        invariant subs == TrackedList(listing[..i], Remembered())
      {
        assert listing[..i + 1][..i] == listing[..i];
        var tracked := TrackedOf(listing[i], Remembered());
        if tracked.Some? {
          subs := subs + [tracked.value];
        }
      }
      assert listing[..|listing|] == listing;
    }

    /** The body of the execution loop. */
    method CarryOut(op: PlannedOperation, answer: Reply, now: int, before: KeepOutcome)
      returns (outcome: KeepOutcome, raised: bool)
      modifies this, client
      ensures var t := Carry(Tour(old(Remembered()), before, [], false), op, answer, canRecreate, now);
              && Remembered() == t.memory && outcome == t.outcome && raised == t.aborted
              && client.calls == old(client.calls) + t.attempts
    {
      outcome, raised := before, false;
      if op.action.Recreate? {
        outcome := outcome.(toRecreate := outcome.toRecreate + [op.id]);
        if !canRecreate {
          return;
        }
      } else if op.action.Nothing? {
        return;
      }
      var reply := client.Call(op.id, op.action, now, answer);
      match reply {
        case Raised =>
          raised := true;
        case Refused =>
          failures := failures[op.id := (if op.id in failures then failures[op.id] else 0) + 1];
          outcome := outcome.(failed := outcome.failed + [op.id]);
        case Accepted =>
          if op.action.Renew? {
            outcome := outcome.(renewed := outcome.renewed + [op.id]);
          } else if op.action.Reactivate? {
            outcome := outcome.(reactivated := outcome.reactivated + [op.id]);
          }
          failures := failures - {op.id};
          lastOperation := lastOperation[op.id := now];
      }
    }

    /** The execution loop, up to its end or to an error that it does not catch. */
    method Execute(ops: seq<PlannedOperation>, replies: nat -> Reply, now: int, before: KeepOutcome)
      returns (outcome: KeepOutcome, raised: bool)
      modifies this, client
      ensures var t := CarryAll(Tour(old(Remembered()), before, [], false), ops, replies, canRecreate, now);
              && Remembered() == t.memory && outcome == t.outcome && raised == t.aborted
              && client.calls == old(client.calls) + t.attempts
    {
      outcome, raised := before, false;
      ghost var start := Tour(Remembered(), before, [], false);
      ghost var tour := start;
      for i := 0 to |ops|
        invariant tour == CarryAll(start, ops[..i], replies, canRecreate, now)
        invariant Remembered() == tour.memory && outcome == tour.outcome && !tour.aborted && !raised
        invariant client.calls == old(client.calls) + tour.attempts
      {
        CarryAllGoesOn(start, ops, i, replies, canRecreate, now);
        CarryAppends(tour, ops[i], replies(i), canRecreate, now);
        outcome, raised := CarryOut(ops[i], replies(i), now, outcome);
        tour := CarryAll(start, ops[..i + 1], replies, canRecreate, now);
        if raised {
          AbortedStays(start, ops, i + 1, replies, canRecreate, now);
          return;
        }
      }
      assert ops[..|ops|] == ops;
    }

    /** `listing` is None when the listing itself raises; the result is None when the tour raises. */
    method KeepOnce(listing: Option<seq<Listed>>, replies: nat -> Reply, now: int)
      returns (result: Option<KeepOutcome>)
      modifies this, client
      ensures listing.None? ==>
                result.None? && Remembered() == old(Remembered()) && client.calls == old(client.calls)
      ensures listing.Some? ==>
                var tour := TourOf(old(Remembered()), listing.value, replies, canRecreate, now);
                && Remembered() == tour.memory
                && client.calls == old(client.calls) + tour.attempts
                && result == if tour.aborted then None else Some(tour.outcome)
    {
      if listing.None? {
        return None;
      }
      var subs := Inspect(listing.value);
      var decisions := MakePlan(subs, now);
      var empty := KeepOutcome(|subs|, [], [], [], [], decisions.skipped);
      var outcome, raised := Execute(decisions.operations, replies, now, empty);
      result := if raised then None else Some(outcome);
    }
  }

  lemma CarryAllGoesOn(t: Tour, ops: seq<PlannedOperation>, i: nat, replies: nat -> Reply, canRecreate: bool, now: int)
    requires i < |ops|
    ensures CarryAll(t, ops[..i + 1], replies, canRecreate, now)
            == Carry(CarryAll(t, ops[..i], replies, canRecreate, now), ops[i], replies(i), canRecreate, now)
  {
    assert ops[..i + 1][..i] == ops[..i];
  }

  /** What is carried out does not depend on the calls made before it, and adds to them. */
  lemma CarryAppends(t: Tour, op: PlannedOperation, reply: Reply, canRecreate: bool, now: int)
    requires !t.aborted
    ensures var whole, alone := Carry(t, op, reply, canRecreate, now),
                                Carry(Tour(t.memory, t.outcome, [], false), op, reply, canRecreate, now);
            && whole.memory == alone.memory && whole.outcome == alone.outcome && whole.aborted == alone.aborted
            && whole.attempts == t.attempts + alone.attempts
  {
  }

  lemma {:induction false} AbortedStays(t: Tour, ops: seq<PlannedOperation>, n: nat, replies: nat -> Reply,
                                        canRecreate: bool, now: int)
    requires n <= |ops| && CarryAll(t, ops[..n], replies, canRecreate, now).aborted
    ensures CarryAll(t, ops, replies, canRecreate, now) == CarryAll(t, ops[..n], replies, canRecreate, now)
  {
    if n < |ops| {
      var m := |ops| - 1;
      assert ops[..m][..n] == ops[..n];
      AbortedStays(t, ops[..m], n, replies, canRecreate, now);
    } else {
      assert ops[..n] == ops;
    }
  }

  // ---------------------------------------------------------------------------
  // When a tour is cut short
  // ---------------------------------------------------------------------------

  /** An operation for which the platform is called. */
  predicate IsTried(op: PlannedOperation, canRecreate: bool) {
    !op.action.Nothing? && (op.action.Recreate? ==> canRecreate)
  }

  ghost predicate RaisesAt(ops: seq<PlannedOperation>, replies: nat -> Reply, canRecreate: bool, k: nat)
    requires k < |ops|
  {
    IsTried(ops[k], canRecreate) && replies(k).Raised?
  }

  ghost predicate SomeRaises(ops: seq<PlannedOperation>, replies: nat -> Reply, canRecreate: bool) {
    exists k :: 0 <= k < |ops| && RaisesAt(ops, replies, canRecreate, k)
  }

  lemma CarryAborts(t: Tour, op: PlannedOperation, reply: Reply, canRecreate: bool, now: int)
    ensures Carry(t, op, reply, canRecreate, now).aborted
            <==> t.aborted || (IsTried(op, canRecreate) && reply.Raised?)
  {
  }

  lemma {:induction false} AbortedBySome(t: Tour, ops: seq<PlannedOperation>, n: nat, replies: nat -> Reply,
                                         canRecreate: bool, now: int)
    requires n <= |ops| && !t.aborted
    ensures CarryAll(t, ops[..n], replies, canRecreate, now).aborted
            <==> exists k :: 0 <= k < n && RaisesAt(ops, replies, canRecreate, k)
  {
    if n > 0 {
      AbortedBySome(t, ops, n - 1, replies, canRecreate, now);
      assert ops[..n][..n - 1] == ops[..n - 1];
      CarryAborts(CarryAll(t, ops[..n - 1], replies, canRecreate, now), ops[n - 1], replies(n - 1), canRecreate, now);
      assert RaisesAt(ops, replies, canRecreate, n - 1)
             <==> IsTried(ops[n - 1], canRecreate) && replies(n - 1).Raised?;
    }
  }

  lemma AbortedExactly(t: Tour, ops: seq<PlannedOperation>, replies: nat -> Reply, canRecreate: bool, now: int)
    requires !t.aborted
    ensures CarryAll(t, ops, replies, canRecreate, now).aborted
            <==> SomeRaises(ops, replies, canRecreate)
  {
    assert ops[..|ops|] == ops;
    AbortedBySome(t, ops, |ops|, replies, canRecreate, now);
  }

  lemma StoppedAt(t: Tour, ops: seq<PlannedOperation>, k: nat, replies: nat -> Reply, canRecreate: bool, now: int)
    requires !t.aborted && k < |ops| && RaisesAt(ops, replies, canRecreate, k)
    ensures CarryAll(t, ops, replies, canRecreate, now) == CarryAll(t, ops[..k + 1], replies, canRecreate, now)
  {
    AbortedBySome(t, ops, k + 1, replies, canRecreate, now);
    AbortedStays(t, ops, k + 1, replies, canRecreate, now);
  }

  /** A tour is cut short if and only if a call it plans raises something else than the client's own error;
      what comes after such a call in the plan is not tried. */
  lemma TourIsCutShortExactly(memory: Memory, listing: seq<Listed>, replies: nat -> Reply, canRecreate: bool, now: int)
    ensures TourOf(memory, listing, replies, canRecreate, now).aborted
            <==> SomeRaises(OperationsOf(TrackedList(listing, memory), now), replies, canRecreate)
    ensures var ops := OperationsOf(TrackedList(listing, memory), now);
            var start := FreshTour(memory, TrackedList(listing, memory), now);
            forall k :: 0 <= k < |ops| && RaisesAt(ops, replies, canRecreate, k) ==>
              TourOf(memory, listing, replies, canRecreate, now)
              == CarryAll(start, ops[..k + 1], replies, canRecreate, now)
  {
    var ops := OperationsOf(TrackedList(listing, memory), now);
    var start := FreshTour(memory, TrackedList(listing, memory), now);
    AbortedExactly(start, ops, replies, canRecreate, now);
    forall k | 0 <= k < |ops| && RaisesAt(ops, replies, canRecreate, k)
      ensures CarryAll(start, ops, replies, canRecreate, now)
              == CarryAll(start, ops[..k + 1], replies, canRecreate, now)
    {
      StoppedAt(start, ops, k, replies, canRecreate, now);
    }
  }
}
