/**
 What becomes of a request to the engine (inference_service/transcribe_engine.py): it is served with the
 backend of its own key, and an unload leaves nothing behind.
 */
module EngineRequests {
  import opened Wrappers
  import opened EngineLoad

  // ---------------------------------------------------------------------------
  // The backend of its own key
  // ---------------------------------------------------------------------------

  /** A thread computes with the backend kept under the key it was asked for, loads that key and no other,
      and offloads only to serve an unload. */
  ghost predicate Answers(ts: ThreadState, sh: Shared) {
    && (ts.pc.Using? ==>
          ts.request.Compute? && ts.request.key in sh.backends && sh.backends[ts.request.key] == ts.pc.backend)
    && (ts.pc.Loading? ==> ts.request == Compute(ts.pc.key))
    && (ts.pc.Offloading? ==> ts.request == Unload)
  }

  ghost predicate AllAnswer(s: State) {
    forall t :: t in s.threads ==> Answers(s.threads[t], s.shared)
  }

  lemma TrackerAnswers(t: Thread, ts: ThreadState, sh: Shared, c: Choice)
    requires !InEngine(ts.pc)
    ensures var (ts', sh') := Tracker(t, ts, sh, c);
            Answers(ts', sh') && sh'.backends == sh.backends
  {
  }

  lemma EngineAnswers(ts: ThreadState, sh: Shared, c: Choice)
    requires InEngine(ts.pc) && Answers(ts, sh)
    ensures var (ts', sh') := Engine(ts, sh, c);
            Answers(ts', sh')
  {
  }

  lemma StepKeepsAnswers(s: State, t: Thread, c: Choice)
    requires LocksHeld(s) && Enabled(s, t) && AllAnswer(s)
    ensures AllAnswer(Step(s, t, c))
  {
    var ts, sh := s.threads[t], s.shared;
    if InEngine(ts.pc) {
      EngineAnswers(ts, sh, c);
      forall u | u in s.threads && u != t ensures Answers(s.threads[u], Step(s, t, c).shared) {
        assert HoldsEngine(ts.pc) && !HoldsEngine(s.threads[u].pc);
        assert Answers(s.threads[u], sh);
      }
    } else {
      TrackerAnswers(t, ts, sh, c);
      forall u | u in s.threads && u != t ensures Answers(s.threads[u], Step(s, t, c).shared) {
        assert Answers(s.threads[u], sh);
      }
    }
  }

  lemma {:induction false} RunKeepsAnswers(run: seq<State>, n: nat)
    requires Run(run) && n < |run|
    ensures AllAnswer(run[n])
  {
    if n > 0 {
      RunKeepsAnswers(run, n - 1);
      RunKeepsInv(run, n - 1);
      assert Follows(run, n - 1);
      var t, c :| Enabled(run[n - 1], t) && run[n] == Step(run[n - 1], t, c);
      StepKeepsAnswers(run[n - 1], t, c);
    }
  }

  /** Over every interleaving: a thread that uses a backend was asked for the key that backend is kept under,
      a thread that loads was asked for what it loads, and only an unload offloads. */
  lemma RequestsGetTheirOwn(run: seq<State>, n: nat, t: Thread)
    requires Run(run) && n < |run| && t in run[n].threads
    ensures var ts, sh := run[n].threads[t], run[n].shared;
            && (ts.pc.Using? ==> ts.request.Compute? && ts.request.key in sh.backends
                                 && sh.backends[ts.request.key] == ts.pc.backend)
            && (ts.pc.Loading? ==> ts.request == Compute(ts.pc.key))
            && (ts.pc.Offloading? ==> ts.request == Unload)
  {
    RunKeepsAnswers(run, n);
    assert Answers(run[n].threads[t], run[n].shared);
  }

  // ---------------------------------------------------------------------------
  // No request is passed over
  // ---------------------------------------------------------------------------

  predicate OnTheWayOut(pc: Pc) { pc.WantExit? || pc.InExit? || pc.LeaveExit? || pc.Release? }

  /** The last thing a request does under the lock: computing, or failing to load what it needs; for an unload,
      finding nothing, or having offloaded everything. */
  ghost predicate Finishes(ts: ThreadState, sh: Shared) {
    match ts.request
    case Compute(key) => ts.pc.Using? || ts.pc == Loading(key)
    case Unload => (ts.pc.Body? && sh.backends == map[]) || ts.pc == Offloading(map[])
  }

  lemma ActLeadsOut(t: Thread, ts: ThreadState, sh: Shared, c: Choice)
    requires Answers(ts, sh) && OnTheWayOut(Act(t, ts, sh, c).0.pc)
    ensures Act(t, ts, sh, c).0.request == ts.request
    ensures OnTheWayOut(ts.pc) || Finishes(ts, sh)
  {
  }

  ghost predicate BusyAt(run: seq<State>, j: nat, t: Thread)
    requires j < |run|
  {
    t in run[j].threads && !run[j].threads[t].pc.Idle?
  }

  /** One step earlier, a thread on its way out was on its way out already, or finishing, with the same request. */
  lemma ExitStep(run: seq<State>, n: nat, t: Thread)
    requires Run(run) && n < |run| && t in run[n].threads && OnTheWayOut(run[n].threads[t].pc)
    ensures n > 0 && BusyAt(run, n - 1, t) && run[n - 1].threads[t].request == run[n].threads[t].request
    ensures OnTheWayOut(run[n - 1].threads[t].pc) || Finishes(run[n - 1].threads[t], run[n - 1].shared)
  {
    RunKeepsAnswers(run, n - 1);
    assert Follows(run, n - 1);
    var u, c :| Enabled(run[n - 1], u) && run[n] == Step(run[n - 1], u, c);
    if u == t {
      ActLeadsOut(t, run[n - 1].threads[t], run[n - 1].shared, c);
    }
  }

  /** A request that leaves the engine has finished there: earlier in the run, and since it last was idle,
      it computed with its backend, or failed to load it, or had nothing left to offload. */
  lemma {:induction false} ExitMeansServed(run: seq<State>, n: nat, t: Thread) returns (m: nat)
    requires Run(run) && n < |run| && t in run[n].threads && OnTheWayOut(run[n].threads[t].pc)
    ensures m < n && t in run[m].threads && run[m].threads[t].request == run[n].threads[t].request
    ensures Finishes(run[m].threads[t], run[m].shared)
    ensures forall j :: m <= j <= n ==> BusyAt(run, j, t)
  {
    ExitStep(run, n, t);
    m := n - 1;
    assert BusyAt(run, n, t);
    if !Finishes(run[m].threads[t], run[m].shared) {
      m := ExitMeansServed(run, n - 1, t);
    }
  }

  /** When an unload has nothing left to offload, every backend ever loaded is offloaded. */
  lemma UnloadLeavesNothing(run: seq<State>, n: nat, t: Thread, b: Backend)
    requires Run(run) && n < |run| && t in run[n].threads && run[n].threads[t].pc == Offloading(map[])
    requires 0 <= b < run[n].shared.loads
    ensures b in run[n].shared.offloaded
  {
    RunKeepsInv(run, n);
    assert HolderPc(run[n]) == Offloading(map[]);
  }

  /** In every reachable state: a backend stays in the engine, under its key, until an unload takes it out, and
      is offloaded by an unload only; computing leaves everything where it is. */
  lemma BackendsStay(run: seq<State>, n: nat, t: Thread, c: Choice, key: string)
    requires Run(run) && n < |run| && Enabled(run[n], t)
    ensures var s, s' := run[n], Step(run[n], t, c);
            && (key in s.shared.backends ==>
                  || (key in s'.shared.backends && s'.shared.backends[key] == s.shared.backends[key])
                  || s.threads[t] == ThreadState(Unload, Body))
            && s.shared.offloaded <= s'.shared.offloaded
            && (s'.shared.offloaded != s.shared.offloaded ==>
                  s.threads[t].request == Unload && s.threads[t].pc.Offloading?)
            && (s.threads[t].pc.Using? ==> s'.shared == s.shared)
  {
    var s := run[n];
    RunKeepsInv(run, n);
    RunKeepsAnswers(run, n);
    assert Answers(s.threads[t], s.shared);
    if InEngine(s.threads[t].pc) {
      assert HoldsEngine(s.threads[t].pc) && HolderPc(s) == s.threads[t].pc;
      EngineStays(s.threads[t], s.shared, c, key);
    } else {
      TrackerTouchesNoBackend(t, s.threads[t], s.shared, c);
    }
  }

  lemma EngineStays(ts: ThreadState, sh: Shared, c: Choice, key: string)
    requires InEngine(ts.pc) && Answers(ts, sh) && (ts.pc.Loading? ==> ts.pc.key !in sh.backends || key != ts.pc.key)
    ensures var (ts', sh') := Engine(ts, sh, c);
            && (key in sh.backends ==>
                  (key in sh'.backends && sh'.backends[key] == sh.backends[key]) || ts == ThreadState(Unload, Body))
            && sh.offloaded <= sh'.offloaded
            && (sh'.offloaded != sh.offloaded ==> ts.request == Unload && ts.pc.Offloading?)
            && (ts.pc.Using? ==> sh' == sh)
  {
  }

  // ---------------------------------------------------------------------------
  // How requests are taken up and served
  // ---------------------------------------------------------------------------

  /** An idle thread takes up the call it gets: a computation under its own key, the default one when no
      backend is named; an unload; or a look at whether there is anything to unload. */
  lemma CallsAreTakenUp(t: Thread, request: Request, sh: Shared, backend: string)
    ensures var ts := ThreadState(request, Idle);
            && Act(t, ts, sh, Transcribe(backend))
               == (ThreadState(Compute(if backend == "" then "_default" else backend), Try), sh)
            && Act(t, ts, sh, CallUnload) == (ThreadState(Unload, Try), sh)
            && Act(t, ts, sh, CallMaybeUnload) == (ThreadState(request, IdleCheck), sh)
  {
  }

  /** The look leads to an unload if and only if something is resident and the engine has been idle long
      enough. */
  lemma IdleEngineIsUnloaded(t: Thread, request: Request, sh: Shared, longIdle: bool)
    ensures Act(t, ThreadState(request, IdleCheck), sh, if longIdle then Yes else No)
            == (if sh.backends != map[] && longIdle then ThreadState(Unload, Try) else ThreadState(request, Idle), sh)
  {
  }

  /** A computation uses what is kept under its key, or else loads it; a load that succeeds keeps a new backend
      under that key and changes no other, one that fails keeps nothing. */
  lemma ComputeLoadsOnce(t: Thread, key: string, sh: Shared, c: Choice)
    ensures Act(t, ThreadState(Compute(key), Body), sh, c)
            == (ThreadState(Compute(key), if key in sh.backends then Using(sh.backends[key]) else Loading(key)), sh)
    ensures var (ts, sh') := Act(t, ThreadState(Compute(key), Loading(key)), sh, c);
            if c.Yes?
            then ts.pc == Using(sh.loads) && sh' == sh.(backends := sh.backends[key := sh.loads], loads := sh.loads + 1)
            else ts.pc == WantExit && sh' == sh
  {
  }

  /** An unload takes everything out of the engine at once, then offloads it one by one. */
  lemma UnloadTakesAll(t: Thread, sh: Shared, c: Choice, rest: map<string, Backend>, k: string)
    ensures sh.backends != map[] ==>
              Act(t, ThreadState(Unload, Body), sh, c)
              == (ThreadState(Unload, Offloading(sh.backends)),
                  sh.(backends := map[], unloads := sh.unloads + |sh.backends|))
    ensures k in rest ==>
              Act(t, ThreadState(Unload, Offloading(rest)), sh, Pick(k))
              == (ThreadState(Unload, Offloading(rest - {k})), sh.(offloaded := sh.offloaded + {rest[k]}))
  {
  }
}
