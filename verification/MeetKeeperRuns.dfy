/**
 Whole runs of `keep_once`. First its discipline towards the platform, with no assumption on the
 clock, the listings' states or the replies; then, for tours close enough together, the survival
 of every subscription that is renewed in time.
 */
module MeetKeeperRuns {
  import opened Wrappers
  import opened Renewal
  import opened Keeper
  import opened MeetKeeper

  /** `listing` is None when the listing raises. */
  datatype TourInput = TourInput(now: int, listing: Option<seq<Listed>>, replies: nat -> Reply)

  ghost predicate DistinctNames(listing: seq<Listed>) {
    forall i, j :: 0 <= i < j < |listing| ==> listing[i].name != listing[j].name
  }

  ghost predicate DistinctListing(input: TourInput) {
    input.listing.Some? ==> DistinctNames(input.listing.value)
  }

  function RunTour(memory: Memory, input: TourInput, canRecreate: bool): Tour {
    match input.listing
    case None => Tour(memory, KeepOutcome(0, [], [], [], [], []), [], true)
    case Some(listing) => TourOf(memory, listing, input.replies, canRecreate, input.now)
  }

  /** The memory of a keeper that starts empty, after the given tours. */
  function MemoryAfter(tours: seq<TourInput>, canRecreate: bool): Memory {
    if tours == [] then Memory(map[], map[])
    else RunTour(MemoryAfter(tours[..|tours| - 1], canRecreate), tours[|tours| - 1], canRecreate).memory
  }

  /** Every call made on the platform in those tours, oldest first. */
  function History(tours: seq<TourInput>, canRecreate: bool): seq<Attempt> {
    if tours == [] then []
    else History(tours[..|tours| - 1], canRecreate)
         + RunTour(MemoryAfter(tours[..|tours| - 1], canRecreate), tours[|tours| - 1], canRecreate).attempts
  }

  // ---------------------------------------------------------------------------
  // Discipline: spacing and giving up
  // ---------------------------------------------------------------------------

  /** Failures counted on a subscription since its last success. */
  function Streak(h: seq<Attempt>, name: string): nat {
    if h == [] then 0 else
      var earlier, last := Streak(h[..|h| - 1], name), h[|h| - 1];
      if last.name != name || last.reply.Raised? then earlier
      else if last.reply.Refused? then earlier + 1
      else 0
  }

  function LastAccepted(h: seq<Attempt>, name: string): Option<int> {
    if h == [] then None else
      var last := h[|h| - 1];
      if last.name == name && last.reply.Accepted? then Some(last.at) else LastAccepted(h[..|h| - 1], name)
  }

  ghost predicate Allowed(h: seq<Attempt>, a: Attempt) {
    && Streak(h, a.name) < MAX_CONSECUTIVE_FAILURES
    && (LastAccepted(h, a.name).Some? ==> a.at - LastAccepted(h, a.name).value >= MIN_INTERVAL_BETWEEN_OPERATIONS)
  }

  ghost predicate Disciplined(h: seq<Attempt>) {
    forall j :: 0 <= j < |h| ==> Allowed(h[..j], h[j])
  }

  ghost predicate Reflects(memory: Memory, h: seq<Attempt>) {
    forall name :: memory.FailuresOf(name) == Streak(h, name) && memory.LastOf(name) == LastAccepted(h, name)
  }

  lemma {:induction false} TrackedComesFromListing(listing: seq<Listed>, memory: Memory)
    requires DistinctNames(listing)
    ensures DistinctIds(TrackedList(listing, memory))
    ensures forall s :: s in TrackedList(listing, memory) ==>
              exists a :: a in listing && TrackedOf(a, memory) == Some(s)
    ensures forall a :: a in listing && TrackedOf(a, memory).Some? ==>
              TrackedOf(a, memory).value in TrackedList(listing, memory)
  {
    if listing != [] {
      var earlier, last := listing[..|listing| - 1], listing[|listing| - 1];
      assert listing == earlier + [last];
      TrackedComesFromListing(earlier, memory);
      forall s | s in TrackedList(earlier, memory) ensures s.id != last.name {
        var a :| a in earlier && TrackedOf(a, memory) == Some(s);
        assert a.name == s.id;
      }
    }
  }

  /** An operation leaves every other subscription's record alone. */
  lemma CarryTouchesOwn(t: Tour, op: PlannedOperation, reply: Reply, canRecreate: bool, now: int, name: string)
    requires name != op.id
    ensures Carry(t, op, reply, canRecreate, now).memory.AgreesOn(t.memory, name)
  {
  }

  lemma CarryReflects(t: Tour, op: PlannedOperation, reply: Reply, canRecreate: bool, now: int, h: seq<Attempt>)
    requires Reflects(t.memory, h + t.attempts)
    ensures var t' := Carry(t, op, reply, canRecreate, now);
            Reflects(t'.memory, h + t'.attempts)
  {
    var t' := Carry(t, op, reply, canRecreate, now);
    if t'.attempts != t.attempts {
      var full := h + t'.attempts;
      assert full[..|full| - 1] == h + t.attempts;
      assert full[|full| - 1] == Attempt(op.id, op.action, now, reply);
      forall name
        ensures t'.memory.FailuresOf(name) == Streak(full, name) && t'.memory.LastOf(name) == LastAccepted(full, name)
      {
        assert t.memory.FailuresOf(name) == Streak(h + t.attempts, name);
      }
    }
  }

  lemma OneMoreDisciplined(h: seq<Attempt>, a: Attempt)
    requires Disciplined(h) && Allowed(h, a)
    ensures Disciplined(h + [a])
  {
    var full := h + [a];
    forall j | 0 <= j < |full| ensures Allowed(full[..j], full[j]) {
      assert full[..j] == if j < |h| then h[..j] else h;
    }
  }

  lemma CarryDisciplined(t: Tour, op: PlannedOperation, reply: Reply, canRecreate: bool, now: int, h: seq<Attempt>)
    requires Disciplined(h + t.attempts)
    requires Allowed(h + t.attempts, Attempt(op.id, op.action, now, reply))
    ensures Disciplined(h + Carry(t, op, reply, canRecreate, now).attempts)
  {
    var a := Attempt(op.id, op.action, now, reply);
    OneMoreDisciplined(h + t.attempts, a);
    assert h + (t.attempts + [a]) == h + t.attempts + [a];
  }

  /** The first n operations of a plan whose operations are all allowed by the memory it was made from. */
  lemma {:induction false} CarryAllKeepsDiscipline(start: Tour, ops: seq<PlannedOperation>, n: nat,
                                                   replies: nat -> Reply, canRecreate: bool, now: int,
                                                   h: seq<Attempt>)
    requires n <= |ops| && start.attempts == []
    requires NamesOnce(ops)
    requires Reflects(start.memory, h) && Disciplined(h)
    requires forall op, reply :: op in ops ==> Allowed(h, Attempt(op.id, op.action, now, reply))
    ensures var t := CarryAll(start, ops[..n], replies, canRecreate, now);
            && Reflects(t.memory, h + t.attempts)
            && Disciplined(h + t.attempts)
            && forall m :: n <= m < |ops| ==> t.memory.AgreesOn(start.memory, ops[m].id)
  {
    assert h + [] == h;
    if n == 0 {
      return;
    }
    CarryAllKeepsDiscipline(start, ops, n - 1, replies, canRecreate, now, h);
    assert ops[..n][..n - 1] == ops[..n - 1];
    var t, op, reply := CarryAll(start, ops[..n - 1], replies, canRecreate, now), ops[n - 1], replies(n - 1);
    assert Allowed(h, Attempt(op.id, op.action, now, reply));
    assert t.memory.AgreesOn(start.memory, op.id);
    CarryReflects(t, op, reply, canRecreate, now, h);
    CarryDisciplined(t, op, reply, canRecreate, now, h);
    forall m | n <= m < |ops| ensures Carry(t, op, reply, canRecreate, now).memory.AgreesOn(start.memory, ops[m].id) {
      CarryTouchesOwn(t, op, reply, canRecreate, now, ops[m].id);
    }
  }

  lemma PlannedMeansAllowed(listing: seq<Listed>, memory: Memory, now: int, h: seq<Attempt>, op: PlannedOperation,
                            reply: Reply)
    requires DistinctNames(listing) && Reflects(memory, h)
    requires op in OperationsOf(TrackedList(listing, memory), now)
    ensures Allowed(h, Attempt(op.id, op.action, now, reply))
  {
    PlanIsPerSubscription(TrackedList(listing, memory), now, op);
    TrackedComesFromListing(listing, memory);
  }

  /** The memory of the keeper after some tours is a true account of the calls it made in them. */
  ghost predicate Remembers(tours: seq<TourInput>, canRecreate: bool) {
    Reflects(MemoryAfter(tours, canRecreate), History(tours, canRecreate))
  }

  /** In every run over listings with distinct names, whatever the clock does: no call is made on a
      subscription after eight failures counted in a row, nor within ten minutes of its last success. */
  lemma {:induction false} KeeperIsDisciplined(tours: seq<TourInput>, canRecreate: bool)
    requires forall i :: 0 <= i < |tours| ==> DistinctListing(tours[i])
    ensures Disciplined(History(tours, canRecreate)) && Remembers(tours, canRecreate)
  {
    if tours != [] {
      var n := |tours| - 1;
      KeeperIsDisciplined(tours[..n], canRecreate);
      var memory, h := MemoryAfter(tours[..n], canRecreate), History(tours[..n], canRecreate);
      assert DistinctListing(tours[n]);
      TourKeepsDiscipline(memory, tours[n], canRecreate, h);
    }
  }

  lemma TourKeepsDiscipline(memory: Memory, input: TourInput, canRecreate: bool, h: seq<Attempt>)
    requires DistinctListing(input) && Disciplined(h) && Reflects(memory, h)
    ensures var t := RunTour(memory, input, canRecreate);
            Disciplined(h + t.attempts) && Reflects(t.memory, h + t.attempts)
  {
    if input.listing.None? {
      assert h + [] == h;
    } else {
      var listing := input.listing.value;
      var subs := TrackedList(listing, memory);
      var ops := OperationsOf(subs, input.now);
      TrackedComesFromListing(listing, memory);
      PlanNamesEachOnce(subs, input.now);
      forall op, reply | op in ops ensures Allowed(h, Attempt(op.id, op.action, input.now, reply)) {
        PlannedMeansAllowed(listing, memory, input.now, h, op, reply);
      }
      assert ops[..|ops|] == ops;
      CarryAllKeepsDiscipline(FreshTour(memory, subs, input.now), ops, |ops|, input.replies, canRecreate, input.now, h);
    }
  }

  /** Hence the spacing holds after EVERY success, not just the last one, on any clock. */
  lemma {:induction false} SpacedAfterEverySuccess(h: seq<Attempt>, i: nat, j: nat)
    requires Disciplined(h) && i < j < |h|
    requires h[i].name == h[j].name && h[i].reply.Accepted?
    ensures h[j].at - h[i].at >= MIN_INTERVAL_BETWEEN_OPERATIONS
  {
    var k := LastAcceptedIndex(h[..j], h[i].name, i);
    if k != i {
      SpacedAfterEverySuccess(h, i, k);
    }
    assert Allowed(h[..j], h[j]);
  }

  lemma {:induction false} LastAcceptedIndex(h: seq<Attempt>, name: string, i: nat) returns (k: nat)
    requires i < |h| && h[i].name == name && h[i].reply.Accepted?
    ensures i <= k < |h| && h[k].name == name && h[k].reply.Accepted? && LastAccepted(h, name) == Some(h[k].at)
  {
    var n := |h| - 1;
    if h[n].name == name && h[n].reply.Accepted? {
      k := n;
    } else {
      assert h[..n][i] == h[i];
      k := LastAcceptedIndex(h[..n], name, i);
    }
  }

  // ---------------------------------------------------------------------------
  // One subscription among the others
  // ---------------------------------------------------------------------------

  ghost predicate SameReport(o: KeepOutcome, o': KeepOutcome, name: string) {
    && (name in o'.renewed <==> name in o.renewed)
    && (name in o'.reactivated <==> name in o.reactivated)
    && (name in o'.toRecreate <==> name in o.toRecreate)
    && (name in o'.failed <==> name in o.failed)
  }

  /** Two stages of a tour look the same from one subscription's side. */
  ghost predicate SameFor(t: Tour, t': Tour, name: string) {
    t'.memory.AgreesOn(t.memory, name) && SameReport(t.outcome, t'.outcome, name)
  }

  lemma CarryOnOther(t: Tour, op: PlannedOperation, reply: Reply, canRecreate: bool, now: int, name: string)
    requires op.id != name
    ensures SameFor(t, Carry(t, op, reply, canRecreate, now), name)
  {
  }

  lemma CarrySameMemory(t: Tour, t': Tour, op: PlannedOperation, reply: Reply, canRecreate: bool, now: int)
    requires t'.memory.AgreesOn(t.memory, op.id) && !t.aborted && !t'.aborted
    ensures var u, u' := Carry(t, op, reply, canRecreate, now), Carry(t', op, reply, canRecreate, now);
            u'.memory.AgreesOn(u.memory, op.id) && (u.aborted <==> u'.aborted)
  {
  }

  lemma CarrySameReport(t: Tour, t': Tour, op: PlannedOperation, reply: Reply, canRecreate: bool, now: int)
    requires SameReport(t.outcome, t'.outcome, op.id) && !t.aborted && !t'.aborted
    ensures var u, u' := Carry(t, op, reply, canRecreate, now), Carry(t', op, reply, canRecreate, now);
            SameReport(u.outcome, u'.outcome, op.id)
  {
  }

  lemma CarryOnSame(t: Tour, t': Tour, op: PlannedOperation, reply: Reply, canRecreate: bool, now: int)
    requires SameFor(t, t', op.id) && !t.aborted && !t'.aborted
    ensures var u, u' := Carry(t, op, reply, canRecreate, now), Carry(t', op, reply, canRecreate, now);
            SameFor(u, u', op.id) && (u.aborted <==> u'.aborted)
  {
    CarrySameMemory(t, t', op, reply, canRecreate, now);
    CarrySameReport(t, t', op, reply, canRecreate, now);
  }

  lemma AlsoAfterOther(t: Tour, t': Tour, op: PlannedOperation, reply: Reply, canRecreate: bool, now: int, name: string)
    requires Untouched(t, t', name) && op.id != name
    ensures Untouched(t, Carry(t', op, reply, canRecreate, now), name)
  {
    CarryOnOther(t', op, reply, canRecreate, now, name);
  }

  ghost predicate Untouched(t: Tour, t': Tour, name: string) {
    SameFor(t, t', name) && (t.aborted ==> t'.aborted)
  }

  lemma {:induction false} OthersLeaveItAlone(start: Tour, ops: seq<PlannedOperation>, k: nat, n: nat,
                                              replies: nat -> Reply, canRecreate: bool, now: int, name: string)
    requires k <= n <= |ops|
    requires forall m :: k <= m < n ==> ops[m].id != name
    ensures Untouched(CarryAll(start, ops[..k], replies, canRecreate, now),
                      CarryAll(start, ops[..n], replies, canRecreate, now), name)
  {
    if k < n {
      OthersLeaveItAlone(start, ops, k, n - 1, replies, canRecreate, now, name);
      assert ops[..n][..n - 1] == ops[..n - 1];
      AlsoAfterOther(CarryAll(start, ops[..k], replies, canRecreate, now),
                     CarryAll(start, ops[..n - 1], replies, canRecreate, now),
                     ops[n - 1], replies(n - 1), canRecreate, now, name);
    }
  }

  /** To its subscription the tour looks as if `op` alone had been carried out, with that reply. */
  ghost predicate AsAlone(start: Tour, end: Tour, op: PlannedOperation, reply: Reply, canRecreate: bool, now: int) {
    var alone := Carry(start, op, reply, canRecreate, now);
    SameFor(alone, end, op.id) && (alone.aborted ==> end.aborted)
  }

  /** A plan with one operation on a subscription: it is carried out as if alone, unless the tour was cut
      short before. */
  lemma PlanOnOne(start: Tour, ops: seq<PlannedOperation>, k: nat, replies: nat -> Reply, canRecreate: bool, now: int)
    requires !start.aborted && k < |ops|
    requires forall m :: 0 <= m < |ops| && m != k ==> ops[m].id != ops[k].id
    ensures var end := CarryAll(start, ops, replies, canRecreate, now);
            || (end.aborted && SameFor(start, end, ops[k].id))
            || AsAlone(start, end, ops[k], replies(k), canRecreate, now)
  {
    var name := ops[k].id;
    var before := CarryAll(start, ops[..k], replies, canRecreate, now);
    assert ops[..k + 1][..k] == ops[..k] && ops[..|ops|] == ops && ops[..0] == [];
    OthersLeaveItAlone(start, ops, 0, k, replies, canRecreate, now, name);
    OthersLeaveItAlone(start, ops, k + 1, |ops|, replies, canRecreate, now, name);
    if !before.aborted {
      CarryOnSame(start, before, ops[k], replies(k), canRecreate, now);
    }
  }

  /** Whatever else a tour does, to one subscription it does what that subscription's own verdict says,
      as if it were alone, or nothing when it is cut short before its turn. */
  lemma TourOnOne(memory: Memory, listing: seq<Listed>, replies: nat -> Reply, canRecreate: bool, now: int,
                  s: TrackedSubscription)
    requires DistinctNames(listing) && s in TrackedList(listing, memory)
    ensures var start := FreshTour(memory, TrackedList(listing, memory), now);
            var end := TourOf(memory, listing, replies, canRecreate, now);
            || (SameFor(start, end, s.id) && (Verdict(s, now).Nothing? || end.aborted))
            || (!Verdict(s, now).Nothing? &&
                exists reply :: AsAlone(start, end, OperationFor(s, now), reply, canRecreate, now))
  {
    var subs := TrackedList(listing, memory);
    var ops := OperationsOf(subs, now);
    var start := FreshTour(memory, subs, now);
    TrackedComesFromListing(listing, memory);
    PlanNamesEachOnce(subs, now);
    PlanIsPerSubscription(subs, now, OperationFor(s, now));
    if Verdict(s, now).Nothing? {
      forall m | 0 <= m < |ops| ensures ops[m].id != s.id {
        PlanIsPerSubscription(subs, now, ops[m]);
      }
      assert ops[..|ops|] == ops && ops[..0] == [];
      OthersLeaveItAlone(start, ops, 0, |ops|, replies, canRecreate, now, s.id);
    } else {
      var k :| 0 <= k < |ops| && ops[k] == OperationFor(s, now);
      PlanOnOne(start, ops, k, replies, canRecreate, now);
    }
  }

  // ---------------------------------------------------------------------------
  // Survival
  // ---------------------------------------------------------------------------

  /** Tours this close together leave room for eight attempts inside the margin of a day. */
  const MAX_GAP := 3 * HOUR

  /** When Google lets the subscription expire: `patch` with a zero ttl grants the full lifetime, and a
      call that raises grants nothing. */
  function ExpiryAfter(tours: seq<TourInput>, canRecreate: bool, name: string, expiry: int): int {
    if tours == [] then expiry else
      var n := |tours| - 1;
      if name in RunTour(MemoryAfter(tours[..n], canRecreate), tours[n], canRecreate).outcome.renewed
      then tours[n].now + MAX_TTL
      else ExpiryAfter(tours[..n], canRecreate, name, expiry)
  }

  /** Tour i goes to its end: its listing answers, and no call raises anything but the client's own error. */
  ghost predicate Completed(tours: seq<TourInput>, canRecreate: bool, i: nat)
    requires i < |tours|
  {
    !RunTour(MemoryAfter(tours[..i], canRecreate), tours[i], canRecreate).aborted
  }

  /** If the listing of tour i answers, it names no subscription twice, and this one as active, with the
      expiry Google holds. */
  ghost predicate Serves(tours: seq<TourInput>, canRecreate: bool, name: string, expiry: int, i: nat)
    requires i < |tours|
  {
    tours[i].listing.Some? ==>
      && DistinctNames(tours[i].listing.value)
      && exists a :: a in tours[i].listing.value && a.name == name && StateOf(a.state).Active?
                     && a.expireTime == Some(ExpiryAfter(tours[..i], canRecreate, name, expiry))
  }

  /** When the last completed tour took place; the first tour, as long as there is none. */
  ghost function LastCompleted(tours: seq<TourInput>, canRecreate: bool): int
    requires tours != []
  {
    var n := |tours| - 1;
    if n == 0 || Completed(tours, canRecreate, n) then tours[n].now else LastCompleted(tours[..n], canRecreate)
  }

  ghost predicate Spaced(tours: seq<TourInput>, canRecreate: bool, i: nat)
    requires 0 < i < |tours|
  {
    tours[i - 1].now <= tours[i].now <= LastCompleted(tours[..i], canRecreate) + MAX_GAP
  }

  ghost predicate Regular(tours: seq<TourInput>, canRecreate: bool, name: string, expiry: int) {
    && name != ""
    && (forall i :: 0 <= i < |tours| ==> Serves(tours, canRecreate, name, expiry, i))
    && (forall i :: 0 < i < |tours| ==> Spaced(tours, canRecreate, i))
    && (tours != [] ==> tours[0].now < expiry - MEET_POLICY.margin)
  }

  /** How long after entering the margin a tour can still come, given the failures counted so far. */
  function Patience(failures: nat): int {
    if failures == 0 then MAX_GAP else Patience(failures - 1) + MAX_GAP
  }

  lemma {:induction false} PatienceFitsMargin(failures: nat)
    requires failures < MAX_CONSECUTIVE_FAILURES
    ensures Patience(failures) <= MEET_POLICY.margin
  {
    assert Patience(3) == 4 * MAX_GAP;
    assert Patience(7) == 8 * MAX_GAP;
    assert Patience(1) == 2 * MAX_GAP && Patience(2) == 3 * MAX_GAP;
    assert Patience(4) == 5 * MAX_GAP && Patience(5) == 6 * MAX_GAP && Patience(6) == 7 * MAX_GAP;
  }

  /** Not too late, and once a failure is counted still inside the margin. */
  ghost predicate InTime(failures: nat, last: Option<int>, expiry: int, now: int) {
    var entry := expiry - MEET_POLICY.margin;
    && (last.Some? ==> last.value + MIN_INTERVAL_BETWEEN_OPERATIONS <= entry)
    && (failures < MAX_CONSECUTIVE_FAILURES ==>
          && now < entry + Patience(failures)
          && (failures > 0 ==> entry <= now))
  }

  ghost predicate MemoryInTime(memory: Memory, name: string, expiry: int, now: int) {
    InTime(memory.FailuresOf(name), memory.LastOf(name), expiry, now)
  }

  /** What the tours up to n leave the keeper with is in time at that instant. */
  ghost predicate StandsInTime(tours: seq<TourInput>, canRecreate: bool, name: string, expiry: int, n: nat, now: int)
    requires n <= |tours|
  {
    MemoryInTime(MemoryAfter(tours[..n], canRecreate), name, ExpiryAfter(tours[..n], canRecreate, name, expiry), now)
  }

  /** A subscription as the keeper tracks it: active, with what the memory holds. */
  ghost predicate TrackedIn(s: TrackedSubscription, memory: Memory, listing: seq<Listed>) {
    && s in TrackedList(listing, memory) && s.state.Active? && s.policy == MEET_POLICY && s.retryNotBefore.None?
    && s.consecutiveFailures == memory.FailuresOf(s.id) && s.lastOperationAt == memory.LastOf(s.id)
  }

  lemma VerdictInTime(s: TrackedSubscription, memory: Memory, listing: seq<Listed>, now: int)
    requires TrackedIn(s, memory, listing) && MemoryInTime(memory, s.id, s.expiresAt, now)
    ensures Verdict(s, now) == if s.GivenUp() || now < s.MarginEntry() then Nothing else Renew
  {
    if !s.GivenUp() {
      PatienceFitsMargin(s.consecutiveFailures);
    }
  }

  /** The failures counted and the last success after a tour, for a subscription to renew or to leave. */
  lemma TourOutcome(memory: Memory, input: TourInput, canRecreate: bool, s: TrackedSubscription)
    requires input.listing.Some? && DistinctNames(input.listing.value) && TrackedIn(s, memory, input.listing.value)
    requires Verdict(s, input.now).Nothing? || Verdict(s, input.now).Renew?
    ensures var t := RunTour(memory, input, canRecreate);
            && s.id !in t.outcome.toRecreate
            && if s.id in t.outcome.renewed
               then Verdict(s, input.now).Renew?
                    && t.memory.FailuresOf(s.id) == 0 && t.memory.LastOf(s.id) == Some(input.now)
               else t.memory.LastOf(s.id) == memory.LastOf(s.id)
                    && if t.memory.FailuresOf(s.id) == memory.FailuresOf(s.id)
                       then Verdict(s, input.now).Nothing? || t.aborted
                       else Verdict(s, input.now).Renew? && t.memory.FailuresOf(s.id) == memory.FailuresOf(s.id) + 1
  {
    TourOnOne(memory, input.listing.value, input.replies, canRecreate, input.now, s);
  }

  lemma TourKeepsInTime(memory: Memory, input: TourInput, canRecreate: bool, s: TrackedSubscription, next: int)
    requires input.listing.Some? && DistinctNames(input.listing.value) && TrackedIn(s, memory, input.listing.value)
    requires MemoryInTime(memory, s.id, s.expiresAt, input.now)
    requires input.now <= next <= input.now + MAX_GAP
    requires RunTour(memory, input, canRecreate).aborted ==> MemoryInTime(memory, s.id, s.expiresAt, next)
    ensures var t := RunTour(memory, input, canRecreate);
            && s.id !in t.outcome.toRecreate
            && MemoryInTime(t.memory, s.id,
                            if s.id in t.outcome.renewed then input.now + MAX_TTL else s.expiresAt, next)
  {
    VerdictInTime(s, memory, input.listing.value, input.now);
    TourOutcome(memory, input, canRecreate, s);
  }

  /** The same, for tour n of a run, listing or not. */
  lemma RegularTour(tours: seq<TourInput>, canRecreate: bool, name: string, expiry: int, n: nat, next: int)
    requires name != "" && n < |tours| && Serves(tours, canRecreate, name, expiry, n)
    requires StandsInTime(tours, canRecreate, name, expiry, n, tours[n].now)
    requires tours[n].now <= next <= tours[n].now + MAX_GAP
    requires !Completed(tours, canRecreate, n) ==> StandsInTime(tours, canRecreate, name, expiry, n, next)
    ensures name !in RunTour(MemoryAfter(tours[..n], canRecreate), tours[n], canRecreate).outcome.toRecreate
    ensures StandsInTime(tours, canRecreate, name, expiry, n + 1, next)
  {
    assert tours[..n + 1][..n] == tours[..n];
    var memory, input := MemoryAfter(tours[..n], canRecreate), tours[n];
    if input.listing.Some? {
      var e := ExpiryAfter(tours[..n], canRecreate, name, expiry);
      var a :| a in input.listing.value && a.name == name && StateOf(a.state).Active? && a.expireTime == Some(e);
      TrackedComesFromListing(input.listing.value, memory);
      TourKeepsInTime(memory, input, canRecreate, TrackedOf(a, memory).value, next);
    }
  }

  lemma {:induction false} LastCompletedIsPast(tours: seq<TourInput>, canRecreate: bool)
    requires tours != [] && forall i :: 0 < i < |tours| ==> tours[i - 1].now <= tours[i].now
    ensures LastCompleted(tours, canRecreate) <= tours[|tours| - 1].now
  {
    if |tours| > 1 {
      LastCompletedIsPast(tours[..|tours| - 1], canRecreate);
    }
  }

  lemma GapFromLastTour(tours: seq<TourInput>, canRecreate: bool, name: string, expiry: int, n: nat)
    requires Regular(tours, canRecreate, name, expiry) && n < |tours|
    ensures LastCompleted(tours[..n + 1], canRecreate) <= tours[n].now
    ensures n > 0 && !Completed(tours, canRecreate, n) ==>
              LastCompleted(tours[..n + 1], canRecreate) == LastCompleted(tours[..n], canRecreate)
  {
    var upTo := tours[..n + 1];
    assert upTo[..n] == tours[..n];
    forall i | 0 < i < |upTo| ensures upTo[i - 1].now <= upTo[i].now {
      assert Spaced(tours, canRecreate, i);
    }
    LastCompletedIsPast(upTo, canRecreate);
  }

  /** An instant between tour n - 1 and the latest one tour n may have; before the first tour if there is
      no earlier one. */
  ghost predicate Within(tours: seq<TourInput>, canRecreate: bool, n: nat, now: int)
    requires n <= |tours| && tours != []
  {
    if n == 0 then now <= tours[0].now + MAX_GAP
    else tours[n - 1].now <= now <= LastCompleted(tours[..n], canRecreate) + MAX_GAP
  }

  lemma TourIsWithin(tours: seq<TourInput>, canRecreate: bool, name: string, expiry: int, n: nat)
    requires Regular(tours, canRecreate, name, expiry) && n < |tours|
    ensures Within(tours, canRecreate, n, tours[n].now)
  {
    if n > 0 {
      assert Spaced(tours, canRecreate, n);
    }
  }

  lemma WithinAfterTour(tours: seq<TourInput>, canRecreate: bool, name: string, expiry: int, n: nat, now: int)
    requires Regular(tours, canRecreate, name, expiry) && n < |tours| && Within(tours, canRecreate, n + 1, now)
    ensures tours[n].now <= now <= tours[n].now + MAX_GAP
    ensures !Completed(tours, canRecreate, n) ==> Within(tours, canRecreate, n, now)
  {
    GapFromLastTour(tours, canRecreate, name, expiry, n);
    if n > 0 {
      assert Spaced(tours, canRecreate, n);
    } else {
      assert tours[..1][0] == tours[0];
    }
  }

  lemma {:induction false} RegularRunIsInTime(tours: seq<TourInput>, canRecreate: bool, name: string, expiry: int,
                                              n: nat, now: int)
    requires tours != [] && Regular(tours, canRecreate, name, expiry) && n <= |tours|
    requires Within(tours, canRecreate, n, now)
    ensures StandsInTime(tours, canRecreate, name, expiry, n, now)
  {
    if n > 0 {
      var m := n - 1;
      TourIsWithin(tours, canRecreate, name, expiry, m);
      RegularRunIsInTime(tours, canRecreate, name, expiry, m, tours[m].now);
      WithinAfterTour(tours, canRecreate, name, expiry, m, now);
      if !Completed(tours, canRecreate, m) {
        RegularRunIsInTime(tours, canRecreate, name, expiry, m, now);
      }
      assert Serves(tours, canRecreate, name, expiry, m);
      RegularTour(tours, canRecreate, name, expiry, m, now);
    }
  }

  /** A subscription first seen outside its margin, with completed tours at most three hours apart and
      any others in between, is alive at every tour that finds fewer than eight failures in a row
      counted on it, and is never up for recreation. */
  lemma ActiveSubscriptionSurvives(tours: seq<TourInput>, canRecreate: bool, name: string, expiry: int, n: nat)
    requires Regular(tours, canRecreate, name, expiry) && n < |tours|
    ensures MemoryAfter(tours[..n], canRecreate).FailuresOf(name) < MAX_CONSECUTIVE_FAILURES ==>
              tours[n].now < ExpiryAfter(tours[..n], canRecreate, name, expiry)
    ensures name !in RunTour(MemoryAfter(tours[..n], canRecreate), tours[n], canRecreate).outcome.toRecreate
  {
    TourIsWithin(tours, canRecreate, name, expiry, n);
    RegularRunIsInTime(tours, canRecreate, name, expiry, n, tours[n].now);
    assert Serves(tours, canRecreate, name, expiry, n);
    RegularTour(tours, canRecreate, name, expiry, n, tours[n].now);
    var failures := MemoryAfter(tours[..n], canRecreate).FailuresOf(name);
    if failures < MAX_CONSECUTIVE_FAILURES {
      PatienceFitsMargin(failures);
    }
  }
}
