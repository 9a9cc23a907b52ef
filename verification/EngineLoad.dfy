/**
 Threads sharing one GPU engine: the load tracker's two locks and counters (inference_service/load.py)
 around the life cycle of the resident backends (inference_service/transcribe_engine.py; the engine of
 inference_service/diarize_engine.py is the case of a single key).

 Any number of threads interleave. A thread is a request and a program counter; each step is one
 action on what is shared, and reading and writing a shared counter are two steps. The environment
 picks the thread, the request it takes up, and whether a load succeeds.
 */
module EngineLoad {
  import opened Wrappers

  type Thread = int

  /** A backend object, numbered in the order the factory returned it. */
  type Backend = int

  datatype Request = Compute(key: string) | Unload

  datatype Pc =
    | Idle
    | IdleCheck                   // maybe_unload_if_idle reads the engine without any lock
    | WantStatus | InStatus       // snapshot() called from outside
    | Try                         // acquire(): non-blocking attempt on the engine lock
    | WantQueue | InQueue | QueueRead(n: int) | LeaveQueue
    | Wait                        // blocking attempt
    | WantSlow | InSlow | SlowRead(n: int) | SlowCounted | LeaveSlow
    | WantLog | InLog             // the log line after the wait calls snapshot()
    | WantFast | InFast | LeaveFast
    | Body                        // the request itself
    | Loading(key: string)
    | Using(backend: Backend)
    | Offloading(rest: map<string, Backend>)
    | WantExit | InExit | LeaveExit
    | Release

  datatype ThreadState = ThreadState(request: Request, pc: Pc)

  datatype Shared = Shared(
    engineLock: Option<Thread>,
    stateLock: Option<Thread>,
    inflight: int,
    queued: int,
    backends: map<string, Backend>,
    offloaded: set<Backend>,
    loads: int,        // backends the factory returned
    unloads: int)      // backends taken out of the engine by unload

  datatype State = State(threads: map<Thread, ThreadState>, shared: Shared)

  datatype Choice = Transcribe(backend: string) | CallUnload | CallMaybeUnload | CallStatus | Pick(k: string) | Yes | No

  /** The key a backend is kept under; no name, or an empty one, stands for the default. */
  function KeyOf(backend: string): string { if backend == "" then "_default" else backend }

  predicate Ready(pc: Pc, sh: Shared) {
    match pc
    case Wait => sh.engineLock.None?
    case WantStatus | WantQueue | WantSlow | WantLog | WantFast | WantExit => sh.stateLock.None?
    case _ => true
  }

  /** The tracker: acquire() up to the body, snapshot(), and the way out. */
  function Tracker(t: Thread, ts: ThreadState, sh: Shared, c: Choice): (ThreadState, Shared) {
    match ts.pc
    case Idle =>
      (match c
       case Transcribe(backend) => (ThreadState(Compute(KeyOf(backend)), Try), sh)
       case CallUnload => (ThreadState(Unload, Try), sh)
       case CallMaybeUnload => (ts.(pc := IdleCheck), sh)
       case CallStatus => (ts.(pc := WantStatus), sh)
       case _ => (ts, sh))
    case IdleCheck => (if sh.backends != map[] && c.Yes? then ThreadState(Unload, Try) else ts.(pc := Idle), sh)
    case WantStatus => (ts.(pc := InStatus), sh.(stateLock := Some(t)))
    case InStatus => (ts.(pc := Idle), sh.(stateLock := None))
    case Try =>
      if sh.engineLock.None? then (ts.(pc := WantFast), sh.(engineLock := Some(t))) else (ts.(pc := WantQueue), sh)
    case WantQueue => (ts.(pc := InQueue), sh.(stateLock := Some(t)))
    case InQueue => (ts.(pc := QueueRead(sh.queued)), sh)
    case QueueRead(n) => (ts.(pc := LeaveQueue), sh.(queued := n + 1))
    case LeaveQueue => (ts.(pc := Wait), sh.(stateLock := None))
    case Wait => (ts.(pc := WantSlow), sh.(engineLock := Some(t)))
    case WantSlow => (ts.(pc := InSlow), sh.(stateLock := Some(t)))
    case InSlow => (ts.(pc := SlowRead(sh.queued)), sh)
    case SlowRead(n) => (ts.(pc := SlowCounted), sh.(queued := Max(0, n - 1)))
    case SlowCounted => (ts.(pc := LeaveSlow), sh.(inflight := 1))
    case LeaveSlow => (ts.(pc := WantLog), sh.(stateLock := None))
    case WantLog => (ts.(pc := InLog), sh.(stateLock := Some(t)))
    case InLog => (ts.(pc := Body), sh.(stateLock := None))
    case WantFast => (ts.(pc := InFast), sh.(stateLock := Some(t)))
    case InFast => (ts.(pc := LeaveFast), sh.(inflight := 1))
    case LeaveFast => (ts.(pc := Body), sh.(stateLock := None))
    case WantExit => (ts.(pc := InExit), sh.(stateLock := Some(t)))
    case InExit => (ts.(pc := LeaveExit), sh.(inflight := 0))
    case LeaveExit => (ts.(pc := Release), sh.(stateLock := None))
    case Release => (ts.(pc := Idle), sh.(engineLock := None))
    case _ => (ts, sh)
  }

  /** The body under the engine lock; a load or a computation that raises goes straight to the exit. */
  function Engine(ts: ThreadState, sh: Shared, c: Choice): (ThreadState, Shared) {
    match ts.pc
    case Body =>
      (match ts.request
       case Compute(key) => (ts.(pc := if key in sh.backends then Using(sh.backends[key]) else Loading(key)), sh)
       case Unload =>
         if sh.backends == map[] then (ts.(pc := WantExit), sh)
         else (ts.(pc := Offloading(sh.backends)), sh.(backends := map[], unloads := sh.unloads + |sh.backends|)))
    case Loading(key) =>
      if c.Yes? then (ts.(pc := Using(sh.loads)), sh.(backends := sh.backends[key := sh.loads], loads := sh.loads + 1))
      else (ts.(pc := WantExit), sh)
    case Using(b) => (ts.(pc := WantExit), sh)
    case Offloading(rest) =>
      if rest == map[] then (ts.(pc := WantExit), sh)
      else if c.Pick? && c.k in rest then
        (ts.(pc := Offloading(rest - {c.k})), sh.(offloaded := sh.offloaded + {rest[c.k]}))
      else (ts, sh)
    case _ => (ts, sh)
  }

  predicate InEngine(pc: Pc) { pc.Body? || pc.Loading? || pc.Using? || pc.Offloading? }

  function Act(t: Thread, ts: ThreadState, sh: Shared, c: Choice): (ThreadState, Shared) {
    if InEngine(ts.pc) then Engine(ts, sh, c) else Tracker(t, ts, sh, c)
  }

  // ---------------------------------------------------------------------------
  // Runs
  // ---------------------------------------------------------------------------

  predicate Enabled(s: State, t: Thread) {
    t in s.threads && Ready(s.threads[t].pc, s.shared)
  }

  function Step(s: State, t: Thread, c: Choice): State
    requires Enabled(s, t)
  {
    var (ts, sh) := Act(t, s.threads[t], s.shared, c);
    State(s.threads[t := ts], sh)
  }

  ghost predicate Init(s: State) {
    && (forall t :: t in s.threads ==> s.threads[t].pc.Idle?)
    && s.shared == Shared(None, None, 0, 0, map[], {}, 0, 0)
  }

  ghost predicate Next(s: State, s': State) {
    exists t, c :: Enabled(s, t) && s' == Step(s, t, c)
  }

  ghost predicate Follows(run: seq<State>, i: nat)
    requires i + 1 < |run|
  {
    Next(run[i], run[i + 1])
  }

  ghost predicate Run(run: seq<State>) {
    run != [] && Init(run[0]) && forall i :: 0 <= i < |run| - 1 ==> Follows(run, i)
  }

  // ---------------------------------------------------------------------------
  // Locks
  // ---------------------------------------------------------------------------

  predicate HoldsEngine(pc: Pc) {
    match pc
    case WantSlow | InSlow | SlowRead(_) | SlowCounted | LeaveSlow | WantLog | InLog => true
    case WantFast | InFast | LeaveFast | Body | Loading(_) | Using(_) | Offloading(_) => true
    case WantExit | InExit | LeaveExit | Release => true
    case _ => false
  }

  predicate HoldsState(pc: Pc) {
    match pc
    case InStatus | InQueue | QueueRead(_) | LeaveQueue => true
    case InSlow | SlowRead(_) | SlowCounted | LeaveSlow | InLog => true
    case InFast | LeaveFast | InExit | LeaveExit => true
    case _ => false
  }

  ghost predicate LocksHeld(s: State) {
    && (s.shared.engineLock.Some? ==> s.shared.engineLock.value in s.threads)
    && (s.shared.stateLock.Some? ==> s.shared.stateLock.value in s.threads)
    && (forall t :: t in s.threads ==> (HoldsEngine(s.threads[t].pc) <==> s.shared.engineLock == Some(t)))
    && (forall t :: t in s.threads ==> (HoldsState(s.threads[t].pc) <==> s.shared.stateLock == Some(t)))
  }

  /** A thread only ever takes a free lock for itself, or gives back its own. */
  predicate Handover(before: Option<Thread>, after: Option<Thread>, t: Thread) {
    after == before || (before.None? && after == Some(t)) || (before == Some(t) && after.None?)
  }

  /** What happens in the body of a request leaves the tracker alone. */
  lemma EngineLeavesTracker(ts: ThreadState, sh: Shared, c: Choice)
    requires InEngine(ts.pc)
    ensures var (ts', sh') := Engine(ts, sh, c);
            && sh'.engineLock == sh.engineLock && sh'.stateLock == sh.stateLock
            && sh'.inflight == sh.inflight && sh'.queued == sh.queued
            && (InEngine(ts'.pc) || ts'.pc.WantExit?)
  {
  }

  lemma ActEngineLock(t: Thread, ts: ThreadState, sh: Shared, c: Choice)
    requires Ready(ts.pc, sh) && (HoldsEngine(ts.pc) <==> sh.engineLock == Some(t))
    ensures var (ts', sh') := Act(t, ts, sh, c);
            (HoldsEngine(ts'.pc) <==> sh'.engineLock == Some(t)) && Handover(sh.engineLock, sh'.engineLock, t)
  {
    if InEngine(ts.pc) {
      EngineLeavesTracker(ts, sh, c);
    }
  }

  lemma ActStateLock(t: Thread, ts: ThreadState, sh: Shared, c: Choice)
    requires Ready(ts.pc, sh) && (HoldsState(ts.pc) <==> sh.stateLock == Some(t))
    ensures var (ts', sh') := Act(t, ts, sh, c);
            (HoldsState(ts'.pc) <==> sh'.stateLock == Some(t)) && Handover(sh.stateLock, sh'.stateLock, t)
  {
    if InEngine(ts.pc) {
      EngineLeavesTracker(ts, sh, c);
    }
  }

  lemma StepKeepsLocks(s: State, t: Thread, c: Choice)
    requires LocksHeld(s) && Enabled(s, t)
    ensures LocksHeld(Step(s, t, c))
  {
    ActEngineLock(t, s.threads[t], s.shared, c);
    ActStateLock(t, s.threads[t], s.shared, c);
  }

  // ---------------------------------------------------------------------------
  // Counters
  // ---------------------------------------------------------------------------

  /** Between its own increment of `_queued` and its own decrement. */
  predicate Queued(pc: Pc) {
    pc.LeaveQueue? || pc.Wait? || pc.WantSlow? || pc.InSlow? || pc.SlowRead?
  }

  /** Between its own `_inflight = 1` and its own `_inflight = 0`. */
  predicate InFlight(pc: Pc) {
    match pc
    case LeaveSlow | WantLog | InLog | LeaveFast | Body | Loading(_) | Using(_) | Offloading(_) => true
    case WantExit | InExit => true
    case _ => false
  }

  function QueuedThreads(s: State): set<Thread> {
    set t | t in s.threads && Queued(s.threads[t].pc)
  }

  ghost predicate FreshRead(pc: Pc, queued: int) {
    (pc.QueueRead? ==> pc.n == queued) && (pc.SlowRead? ==> pc.n == queued)
  }

  ghost predicate CountersExact(s: State) {
    && s.shared.queued == |QueuedThreads(s)|
    && (forall t :: t in s.threads ==> FreshRead(s.threads[t].pc, s.shared.queued))
    && s.shared.inflight == if s.shared.engineLock.Some? && s.shared.engineLock.value in s.threads
                               && InFlight(s.threads[s.shared.engineLock.value].pc) then 1 else 0
  }

  /** `_queued` moves by one, under the state lock, as its thread enters or leaves the queue. The
      decrement never meets the floor at zero. */
  lemma ActQueued(t: Thread, ts: ThreadState, sh: Shared, c: Choice)
    requires FreshRead(ts.pc, sh.queued) && (Queued(ts.pc) ==> sh.queued >= 1)
    ensures var (ts', sh') := Act(t, ts, sh, c);
            && sh'.queued == sh.queued + (if Queued(ts'.pc) then 1 else 0) - (if Queued(ts.pc) then 1 else 0)
            && FreshRead(ts'.pc, sh'.queued)
            && (sh'.queued != sh.queued ==> HoldsState(ts.pc))
  {
    if InEngine(ts.pc) {
      EngineLeavesTracker(ts, sh, c);
    }
  }

  /** `_inflight` is written by the holder of the engine lock only, and follows its progress. */
  lemma ActInflight(t: Thread, ts: ThreadState, sh: Shared, c: Choice)
    ensures var (ts', sh') := Act(t, ts, sh, c);
            && (sh'.inflight != sh.inflight ==> HoldsEngine(ts.pc))
            && (HoldsEngine(ts.pc) && sh.inflight == (if InFlight(ts.pc) then 1 else 0) ==>
                  sh'.inflight == (if InFlight(ts'.pc) then 1 else 0))
            && (HoldsEngine(ts.pc) != HoldsEngine(ts'.pc) ==> !InFlight(ts.pc) && !InFlight(ts'.pc))
  {
    if InEngine(ts.pc) {
      EngineLeavesTracker(ts, sh, c);
    }
  }

  lemma QueuedAfter(s: State, t: Thread, ts: ThreadState, sh: Shared)
    requires t in s.threads
    ensures |QueuedThreads(State(s.threads[t := ts], sh))|
            == |QueuedThreads(s)| + (if Queued(ts.pc) then 1 else 0) - (if Queued(s.threads[t].pc) then 1 else 0)
  {
    var before, after := QueuedThreads(s), QueuedThreads(State(s.threads[t := ts], sh));
    assert t in before <==> Queued(s.threads[t].pc);
    assert t in after <==> Queued(ts.pc);
    assert after - {t} == before - {t};
    Without(before, t);
    Without(after, t);
  }

  lemma Without(s: set<Thread>, t: Thread)
    ensures |s| == |s - {t}| + if t in s then 1 else 0
  {
    if t !in s {
      assert s - {t} == s;
    }
  }

  lemma StepKeepsCounters(s: State, t: Thread, c: Choice)
    requires LocksHeld(s) && CountersExact(s) && Enabled(s, t)
    ensures CountersExact(Step(s, t, c))
  {
    var ts, sh := s.threads[t], s.shared;
    var (ts', sh') := Act(t, ts, sh, c);
    if Queued(ts.pc) {
      assert t in QueuedThreads(s);
    }
    ActQueued(t, ts, sh, c);
    QueuedAfter(s, t, ts', sh');
    forall u | u in s.threads && u != t ensures FreshRead(s.threads[u].pc, sh'.queued) {
      if sh'.queued != sh.queued {
        assert sh.stateLock == Some(t);
        assert !HoldsState(s.threads[u].pc);
      }
    }
    InflightFollowsHolder(s, t, c);
  }

  lemma InflightFollowsHolder(s: State, t: Thread, c: Choice)
    requires LocksHeld(s) && CountersExact(s) && Enabled(s, t)
    ensures var s' := Step(s, t, c);
            s'.shared.inflight == if s'.shared.engineLock.Some? && s'.shared.engineLock.value in s'.threads
                                     && InFlight(s'.threads[s'.shared.engineLock.value].pc) then 1 else 0
  {
    ActInflight(t, s.threads[t], s.shared, c);
    ActEngineLock(t, s.threads[t], s.shared, c);
  }

  // ---------------------------------------------------------------------------
  // Backends
  // ---------------------------------------------------------------------------

  function HolderPc(s: State): Pc {
    if s.shared.engineLock.Some? && s.shared.engineLock.value in s.threads
    then s.threads[s.shared.engineLock.value].pc else Idle
  }

  /** The dictionary entries taken out by unload and not offloaded yet. */
  function Batch(pc: Pc): map<string, Backend> {
    if pc.Offloading? then pc.rest else map[]
  }

  /** Distinct keys map to distinct backends, all created and none offloaded. */
  ghost predicate Intact(m: map<string, Backend>, sh: Shared) {
    && (forall k :: k in m ==> 0 <= m[k] < sh.loads && m[k] !in sh.offloaded)
    && (forall k, l :: k in m && l in m && m[k] == m[l] ==> k == l)
  }

  /** pc is where the holder of the engine lock stands. */
  ghost predicate EngineSound(pc: Pc, sh: Shared) {
    && Intact(sh.backends, sh)
    && Intact(Batch(pc), sh)
    && (forall b :: b in sh.offloaded ==> 0 <= b < sh.loads)
    && (forall b :: 0 <= b < sh.loads && b !in sh.offloaded ==> b in sh.backends.Values || b in Batch(pc).Values)
    && sh.loads - sh.unloads == |sh.backends|
    && (pc.Loading? ==> pc.key !in sh.backends)
    && (pc.Using? ==> pc.backend in sh.backends.Values)
    && (pc.Offloading? ==> sh.backends == map[])
  }

  lemma OneMoreBackend(m: map<string, Backend>, key: string, n: Backend)
    requires key !in m && n !in m.Values
    ensures forall b :: b in m[key := n].Values <==> b in m.Values || b == n
    ensures |m[key := n]| == |m| + 1
  {
    var m' := m[key := n];
    forall b | b in m.Values ensures b in m'.Values {
      var k :| k in m && m[k] == b;
      assert m'[k] == b;
    }
    assert m'[key] == n;
    assert m'.Keys == m.Keys + {key};
  }

  lemma LoadedKeepsSound(key: string, sh: Shared)
    requires EngineSound(Loading(key), sh) && sh.loads >= 0
    ensures EngineSound(Using(sh.loads), sh.(backends := sh.backends[key := sh.loads], loads := sh.loads + 1))
  {
    OneMoreBackend(sh.backends, key, sh.loads);
  }

  lemma LoadingKeepsSound(ts: ThreadState, sh: Shared, c: Choice)
    requires ts.pc.Loading? && EngineSound(ts.pc, sh)
    requires sh.loads >= 0
    ensures var (ts', sh') := Engine(ts, sh, c);
            EngineSound(ts'.pc, sh')
  {
    if c.Yes? {
      LoadedKeepsSound(ts.pc.key, sh);
    } else {
      UntouchedStaysSound(ts.pc, sh, WantExit, sh);
    }
  }

  lemma OffloadedLeavesOthers(rest: map<string, Backend>, sh: Shared, k: string)
    requires Intact(rest, sh) && k in rest
    ensures Intact(rest - {k}, sh.(offloaded := sh.offloaded + {rest[k]}))
    ensures forall b :: b in rest.Values && b != rest[k] ==> b in (rest - {k}).Values
  {
    var m := rest - {k};
    forall l | l in m ensures l in rest && m[l] == rest[l] && l != k {}
    forall b | b in rest.Values && b != rest[k] ensures b in m.Values {
      var l :| l in rest && rest[l] == b;
      assert l in m && m[l] == b;
    }
  }

  lemma OffloadingLosesNone(rest: map<string, Backend>, sh: Shared, k: string, b: Backend)
    requires k in rest && Intact(rest, sh)
    requires b !in sh.offloaded ==> b in sh.backends.Values || b in rest.Values
    requires b !in sh.offloaded + {rest[k]}
    ensures b in sh.backends.Values || b in (rest - {k}).Values
  {
    OffloadedLeavesOthers(rest, sh, k);
  }

  lemma OneOffloadKeepsSound(pc: Pc, sh: Shared, k: string)
    requires pc.Offloading? && EngineSound(pc, sh) && k in pc.rest
    ensures EngineSound(Offloading(pc.rest - {k}), sh.(offloaded := sh.offloaded + {pc.rest[k]}))
  {
    var rest, sh' := pc.rest - {k}, sh.(offloaded := sh.offloaded + {pc.rest[k]});
    assert 0 <= pc.rest[k] < sh.loads;
    OffloadedLeavesOthers(pc.rest, sh, k);
    forall b | 0 <= b < sh.loads && b !in sh'.offloaded ensures b in sh.backends.Values || b in rest.Values {
      OffloadingLosesNone(pc.rest, sh, k, b);
    }
    assert Intact(rest, sh') && Intact(sh'.backends, sh');
  }

  /** Actions that leave the backends as they are, and end neither loading, using nor offloading. */
  lemma UntouchedStaysSound(pc: Pc, sh: Shared, pc': Pc, sh': Shared)
    requires EngineSound(pc, sh) && Batch(pc) == map[]
    requires !pc'.Loading? && !pc'.Using? && !pc'.Offloading?
    requires sh'.backends == sh.backends && sh'.offloaded == sh.offloaded
    requires sh'.loads == sh.loads && sh'.unloads == sh.unloads
    ensures EngineSound(pc', sh')
  {
  }

  lemma UsingKeepsSound(ts: ThreadState, sh: Shared, c: Choice)
    requires ts.pc.Using? && EngineSound(ts.pc, sh)
    ensures var (ts', sh') := Engine(ts, sh, c);
            EngineSound(ts'.pc, sh')
  {
    UntouchedStaysSound(ts.pc, sh, WantExit, sh);
  }

  lemma OffloadingKeepsSound(ts: ThreadState, sh: Shared, c: Choice)
    requires ts.pc.Offloading? && EngineSound(ts.pc, sh)
    ensures var (ts', sh') := Engine(ts, sh, c);
            EngineSound(ts'.pc, sh')
  {
    if ts.pc.rest == map[] {
      assert Engine(ts, sh, c) == (ts.(pc := WantExit), sh);
      UntouchedStaysSound(ts.pc, sh, WantExit, sh);
    } else if c.Pick? && c.k in ts.pc.rest {
      OneOffloadKeepsSound(ts.pc, sh, c.k);
    } else {
      assert Engine(ts, sh, c) == (ts, sh);
    }
  }

  lemma TrackerTouchesNoBackend(t: Thread, ts: ThreadState, sh: Shared, c: Choice)
    requires !InEngine(ts.pc)
    ensures var (ts', sh') := Tracker(t, ts, sh, c);
            && sh'.backends == sh.backends && sh'.offloaded == sh.offloaded
            && sh'.loads == sh.loads && sh'.unloads == sh.unloads
            && !ts'.pc.Loading? && !ts'.pc.Using? && !ts'.pc.Offloading?
  {
  }

  lemma BodyKeepsSound(ts: ThreadState, sh: Shared, c: Choice)
    requires ts.pc.Body? && EngineSound(ts.pc, sh)
    ensures var (ts', sh') := Engine(ts, sh, c);
            EngineSound(ts'.pc, sh')
  {
  }

  lemma LoadsNeverDrop(ts: ThreadState, sh: Shared, c: Choice)
    ensures Engine(ts, sh, c).1.loads >= sh.loads
  {
  }

  lemma EngineKeepsSound(ts: ThreadState, sh: Shared, c: Choice)
    requires InEngine(ts.pc) && EngineSound(ts.pc, sh) && sh.loads >= 0
    ensures var (ts', sh') := Engine(ts, sh, c);
            EngineSound(ts'.pc, sh') && sh'.loads >= 0
  {
    LoadsNeverDrop(ts, sh, c);
    match ts.pc {
      case Body => BodyKeepsSound(ts, sh, c);
      case Loading(_) => LoadingKeepsSound(ts, sh, c);
      case Using(_) => UsingKeepsSound(ts, sh, c);
      case Offloading(_) => OffloadingKeepsSound(ts, sh, c);
    }
  }

  lemma StepKeepsSound(s: State, t: Thread, c: Choice)
    requires LocksHeld(s) && Enabled(s, t) && s.shared.loads >= 0 && EngineSound(HolderPc(s), s.shared)
    ensures var s' := Step(s, t, c);
            s'.shared.loads >= 0 && EngineSound(HolderPc(s'), s'.shared)
  {
    var ts, sh := s.threads[t], s.shared;
    ActEngineLock(t, ts, sh, c);
    if InEngine(ts.pc) {
      EngineKeepsSound(ts, sh, c);
    } else {
      TrackerTouchesNoBackend(t, ts, sh, c);
      var (ts', sh') := Tracker(t, ts, sh, c);
      if HoldsEngine(ts.pc) || HoldsEngine(ts'.pc) {
        UntouchedStaysSound(HolderPc(s), sh, HolderPc(Step(s, t, c)), sh');
      }
    }
  }

  // ---------------------------------------------------------------------------
  // Every reachable state
  // ---------------------------------------------------------------------------

  ghost predicate Inv(s: State) {
    LocksHeld(s) && CountersExact(s) && s.shared.loads >= 0 && EngineSound(HolderPc(s), s.shared)
  }

  lemma {:induction false} RunKeepsInv(run: seq<State>, n: nat)
    requires Run(run) && n < |run|
    ensures Inv(run[n])
  {
    if n == 0 {
      forall t | t in run[0].threads ensures !Queued(run[0].threads[t].pc) {}
      assert QueuedThreads(run[0]) == {};
    } else {
      RunKeepsInv(run, n - 1);
      assert Follows(run, n - 1);
      var t, c :| Enabled(run[n - 1], t) && run[n] == Step(run[n - 1], t, c);
      StepKeepsLocks(run[n - 1], t, c);
      StepKeepsCounters(run[n - 1], t, c);
      StepKeepsSound(run[n - 1], t, c);
    }
  }

  /** At most one thread is in its body, the counters published by snapshot() are exact, and the
      floor at zero of the decrement is never needed. */
  lemma LoadIsSerialized(run: seq<State>, n: nat, t: Thread, u: Thread)
    requires Run(run) && n < |run| && t in run[n].threads && u in run[n].threads
    ensures var s := run[n];
            && (HoldsEngine(s.threads[t].pc) && HoldsEngine(s.threads[u].pc) ==> t == u)
            && (HoldsState(s.threads[t].pc) && HoldsState(s.threads[u].pc) ==> t == u)
            && 0 <= s.shared.inflight <= 1
            && (InFlight(s.threads[t].pc) ==> s.shared.inflight == 1)
            && (s.shared.inflight == 1 ==> exists w :: w in s.threads && InFlight(s.threads[w].pc))
            && s.shared.queued == |QueuedThreads(s)|
            && (s.threads[t].pc.SlowRead? ==> s.threads[t].pc.n >= 1)
  {
    RunKeepsInv(run, n);
    var s := run[n];
    InFlightHolds(s.threads[t].pc);
    if s.shared.inflight == 1 {
      var w := s.shared.engineLock.value;
      assert w in s.threads && InFlight(s.threads[w].pc);
    }
    if s.threads[t].pc.SlowRead? {
      assert t in QueuedThreads(s);
    }
  }

  lemma InFlightHolds(pc: Pc)
    ensures InFlight(pc) ==> HoldsEngine(pc)
  {
  }

  lemma BusyPcMoves(t: Thread, ts: ThreadState, sh: Shared) returns (c: Choice)
    requires !ts.pc.Idle?
    ensures Act(t, ts, sh, c).0.pc != ts.pc
  {
    c := Yes;
    if ts.pc.Offloading? && ts.pc.rest != map[] {
      var k :| k in ts.pc.rest;
      c := Pick(k);
      assert k !in ts.pc.rest - {k};
    }
  }

  /** A thread that is not idle and waits for no lock can move on. */
  lemma BusyThreadMoves(s: State, t: Thread) returns (c: Choice)
    requires Enabled(s, t) && !s.threads[t].pc.Idle?
    ensures Step(s, t, c) != s
  {
    c := BusyPcMoves(t, s.threads[t], s.shared);
    assert Step(s, t, c).threads[t] != s.threads[t];
  }

  /** No deadlock: as long as a thread has something to do, some such thread can take a step that
      changes the state. */
  lemma SomeThreadCanAct(run: seq<State>, n: nat)
    requires Run(run) && n < |run|
    requires exists t :: t in run[n].threads && !run[n].threads[t].pc.Idle?
    ensures exists t, c :: Enabled(run[n], t) && !run[n].threads[t].pc.Idle? && Step(run[n], t, c) != run[n]
  {
    RunKeepsInv(run, n);
    var s := run[n];
    var u: Thread;
    if s.shared.stateLock.Some? {
      u := s.shared.stateLock.value;
      assert u in s.threads && HoldsState(s.threads[u].pc);
    } else if s.shared.engineLock.Some? {
      u := s.shared.engineLock.value;
      assert u in s.threads && HoldsEngine(s.threads[u].pc);
    } else {
      u :| u in s.threads && !s.threads[u].pc.Idle?;
    }
    var c := BusyThreadMoves(s, u);
  }

  /** Backends over every interleaving: one in use is resident and not offloaded, one being offloaded
      is used by nobody and offloaded once, a key has at most one live backend, and what was loaded
      less what was unloaded is what is resident. */
  lemma BackendsAreSafe(run: seq<State>, n: nat, t: Thread)
    requires Run(run) && n < |run| && t in run[n].threads
    ensures var s := run[n];
            var pc, sh := s.threads[t].pc, s.shared;
            && (pc.Using? ==> pc.backend in sh.backends.Values && pc.backend !in sh.offloaded)
            && (pc.Offloading? ==>
                  && (forall k :: k in pc.rest ==> pc.rest[k] !in sh.offloaded)
                  && (forall u :: u in s.threads ==> !s.threads[u].pc.Using?))
            && (forall k, l :: k in sh.backends && l in sh.backends && sh.backends[k] == sh.backends[l] ==> k == l)
            && (forall b :: 0 <= b < sh.loads && b !in sh.offloaded ==>
                  b in sh.backends.Values || b in Batch(HolderPc(s)).Values)
            && (sh.backends == map[] || Batch(HolderPc(s)) == map[])
            && sh.loads - sh.unloads == |sh.backends|
  {
    RunKeepsInv(run, n);
  }
}
