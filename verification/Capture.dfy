/**
 Audio tracks of a meeting page, each read by its own pump: which track speaks for a participant
 (connector_service/bot/capture.js).

 The page runs one thread of JavaScript, so what a pump does between two awaits is one step. The
 environment picks the next event: a track is announced, an identity is resolved, a pump gets a
 frame, the end of its stream, or an error.
 */
module Capture {
  import opened Wrappers

  type Track = int

  type Participant = int

  datatype Pump =
    | Resolving                                        // announced, identity not known yet
    | Dropped                                          // never piped: a silent placeholder
    | Reading(participant: Participant, owns: bool)
    | Stopped(participant: Participant)                // the stream ended, or the track was a duplicate
    | Failed(participant: Participant, owns: bool)     // an exception left the pump

  datatype LogEntry = Sent(participant: Participant, track: Track) | Released(participant: Participant, track: Track)

  datatype Page = Page(
    pumps: map<Track, Pump>,               // its keys are the `piped` set
    active: map<Participant, Track>,       // activeByParticipant
    anyIdentityResolved: bool,
    framesRead: nat,
    framesClosed: seq<nat>,
    log: seq<LogEntry>)

  datatype Fault = NoFault | CopyThrows | SendThrows

  datatype Event =
    | Announced(track: Track, mixed: bool)
    | Identified(track: Track, identity: Option<Participant>, fallback: Participant, placeholder: bool)
    | GotFrame(track: Track, voiced: bool, socketOpen: bool, fault: Fault)
    | StreamEnded(track: Track)
    | ReadThrows(track: Track)

  predicate Possible(s: Page, e: Event) {
    match e
    case Announced(_, _) => true
    case Identified(t, _, _, _) => t in s.pumps && s.pumps[t].Resolving?
    case GotFrame(t, _, _, _) => t in s.pumps && s.pumps[t].Reading?
    case StreamEnded(t) => t in s.pumps && s.pumps[t].Reading?
    case ReadThrows(t) => t in s.pumps && s.pumps[t].Reading?
  }

  function SetPump(s: Page, t: Track, p: Pump): Page { s.(pumps := s.pumps[t := p]) }

  function OnTrack(s: Page, t: Track, mixed: bool): Page {
    if mixed || t in s.pumps then s else SetPump(s, t, Resolving)
  }

  function OnIdentity(s: Page, t: Track, identity: Option<Participant>, fallback: Participant,
                      placeholder: bool): Page {
    match identity
    case Some(p) => SetPump(s, t, Reading(p, false)).(anyIdentityResolved := true)
    case None => SetPump(s, t, if s.anyIdentityResolved && placeholder then Dropped else Reading(fallback, false))
  }

  /** A frame, up to the next read; whatever happens the frame is closed on the way out. */
  function OnFrame(s: Page, t: Track, voiced: bool, socketOpen: bool, fault: Fault): Page
    requires t in s.pumps && s.pumps[t].Reading?
  {
    var p, owns := s.pumps[t].participant, s.pumps[t].owns;
    var closed := s.(framesRead := s.framesRead + 1, framesClosed := s.framesClosed + [s.framesRead]);
    if fault.CopyThrows? then SetPump(closed, t, Failed(p, owns))
    else if !owns && !voiced then closed
    else if !owns && p in s.active then SetPump(closed, t, Stopped(p))
    else
      var owner := SetPump(closed, t, Reading(p, true)).(active := if owns then s.active else s.active[p := t]);
      if !socketOpen then owner
      else if fault.SendThrows? then SetPump(owner, t, Failed(p, true))
      else owner.(log := s.log + [Sent(p, t)])
  }

  /** The end of the stream gives the participant up. */
  function OnEnd(s: Page, t: Track): Page
    requires t in s.pumps && s.pumps[t].Reading?
  {
    var p := s.pumps[t].participant;
    var stopped := SetPump(s, t, Stopped(p));
    if !s.pumps[t].owns then stopped
    else stopped.(active := if p in s.active && s.active[p] == t then s.active - {p} else s.active,
                  log := s.log + [Released(p, t)])
  }

  function Step(s: Page, e: Event): Page
    requires Possible(s, e)
  {
    match e
    case Announced(t, mixed) => OnTrack(s, t, mixed)
    case Identified(t, identity, fallback, placeholder) => OnIdentity(s, t, identity, fallback, placeholder)
    case GotFrame(t, voiced, socketOpen, fault) => OnFrame(s, t, voiced, socketOpen, fault)
    case StreamEnded(t) => OnEnd(s, t)
    case ReadThrows(t) => SetPump(s, t, Failed(s.pumps[t].participant, s.pumps[t].owns))
  }

  ghost predicate Next(s: Page, s': Page) {
    exists e :: Possible(s, e) && s' == Step(s, e)
  }

  ghost predicate Follows(run: seq<Page>, i: nat)
    requires i + 1 < |run|
  {
    Next(run[i], run[i + 1])
  }

  ghost predicate Linked(run: seq<Page>) {
    run != [] && forall i :: 0 <= i < |run| - 1 ==> Follows(run, i)
  }

  const BLANK := Page(map[], map[], false, 0, [], [])

  ghost predicate Run(run: seq<Page>) {
    Linked(run) && run[0] == BLANK
  }

  // ---------------------------------------------------------------------------
  // Ownership
  // ---------------------------------------------------------------------------

  predicate Owns(s: Page, t: Track, p: Participant) {
    t in s.pumps && (s.pumps[t] == Reading(p, true) || s.pumps[t] == Failed(p, true))
  }

  predicate HasStopped(s: Page, t: Track) {
    t in s.pumps && s.pumps[t].Stopped?
  }

  predicate Records(s: Page, p: Participant, t: Track) {
    p in s.active && s.active[p] == t
  }

  ghost predicate OwnershipRecorded(s: Page) {
    forall t, p :: Owns(s, t, p) <==> Records(s, p, t)
  }

  /** What was sent belongs to the present owner or to an owner that released the participant since;
      a release is final. */
  ghost predicate LogExplained(s: Page) {
    && (forall i :: 0 <= i < |s.log| && s.log[i].Sent? ==>
          Owns(s, s.log[i].track, s.log[i].participant)
          || exists m :: i < m < |s.log| && s.log[m] == Released(s.log[i].participant, s.log[i].track))
    && (forall m :: 0 <= m < |s.log| && s.log[m].Released? ==> HasStopped(s, s.log[m].track))
  }

  /** A participant's frames come in single-track blocks: when the track changes, the previous owner
      released the participant in between. */
  ghost predicate InBlocks(log: seq<LogEntry>) {
    forall i, j :: 0 <= i < j < |log| && log[i].Sent? && log[j].Sent?
                   && log[i].participant == log[j].participant && log[i].track != log[j].track
                   ==> exists m :: i < m < j && log[m] == Released(log[i].participant, log[i].track)
  }

  ghost predicate ReleaseIsFinal(log: seq<LogEntry>) {
    forall m, j :: 0 <= m < j < |log| && log[m].Released? ==> log[j].track != log[m].track
  }

  ghost predicate Inv(s: Page) {
    OwnershipRecorded(s) && LogExplained(s) && InBlocks(s.log) && ReleaseIsFinal(s.log)
  }

  lemma StepMovesOnePump(s: Page, e: Event)
    requires Possible(s, e)
    ensures forall u :: u != e.track ==> (u in Step(s, e).pumps <==> u in s.pumps)
    ensures forall u :: u != e.track && u in s.pumps ==> Step(s, e).pumps[u] == s.pumps[u]
  {
  }

  lemma StepMovesOneOwner(s: Page, e: Event, p: Participant)
    requires Possible(s, e)
    requires forall q :: Owns(s, e.track, q) <==> Records(s, q, e.track)
    ensures Owns(Step(s, e), e.track, p) <==> Records(Step(s, e), p, e.track)
    ensures forall u :: u != e.track ==> (Records(Step(s, e), p, u) <==> Records(s, p, u))
  {
    assert Owns(s, e.track, p) <==> Records(s, p, e.track);
  }

  lemma StepKeepsOwnership(s: Page, e: Event)
    requires OwnershipRecorded(s) && Possible(s, e)
    ensures OwnershipRecorded(Step(s, e))
  {
    var s' := Step(s, e);
    StepMovesOnePump(s, e);
    forall t, p ensures Owns(s', t, p) <==> Records(s', p, t) {
      StepMovesOneOwner(s, e, p);
      assert t != e.track ==> (Owns(s', t, p) <==> Owns(s, t, p));
    }
  }

  /** A step adds at most one entry, about the track it moves. */
  lemma StepLogs(s: Page, e: Event)
    requires OwnershipRecorded(s) && Possible(s, e)
    ensures var s', t := Step(s, e), e.track;
            && (forall u :: u != t && u in s.pumps ==> u in s'.pumps && s'.pumps[u] == s.pumps[u])
            && (HasStopped(s, t) ==> HasStopped(s', t))
            && (s'.log == s.log
                || (exists p :: s'.log == s.log + [Sent(p, t)] && Owns(s', t, p) && !HasStopped(s, t))
                || (exists p ::
                      s'.log == s.log + [Released(p, t)] && HasStopped(s', t) && Owns(s, t, p) && !HasStopped(s, t)))
            && (forall p :: Owns(s, t, p) ==> Owns(s', t, p) || s'.log == s.log + [Released(p, t)])
  {
  }

  lemma StepKeepsLogExplained(s: Page, e: Event)
    requires OwnershipRecorded(s) && LogExplained(s) && Possible(s, e)
    ensures LogExplained(Step(s, e))
  {
    var s', t, n := Step(s, e), e.track, |s.log|;
    StepLogs(s, e);
    assert s.log <= s'.log;
    forall i | 0 <= i < |s'.log| && s'.log[i].Sent?
      ensures Owns(s', s'.log[i].track, s'.log[i].participant)
              || exists m :: i < m < |s'.log| && s'.log[m] == Released(s'.log[i].participant, s'.log[i].track)
    {
      if i < n {
        var p, u := s.log[i].participant, s.log[i].track;
        if Owns(s, u, p) {
          if !Owns(s', u, p) {
            assert s'.log[n] == Released(p, u);
          }
        } else {
          var m :| i < m < n && s.log[m] == Released(p, u);
          assert s'.log[m] == Released(p, u);
        }
      }
    }
  }

  /** The entry a step adds is about a track that has released nothing. */
  lemma StepKeepsReleases(s: Page, e: Event)
    requires OwnershipRecorded(s) && LogExplained(s) && ReleaseIsFinal(s.log) && Possible(s, e)
    ensures ReleaseIsFinal(Step(s, e).log)
  {
    var s', n := Step(s, e), |s.log|;
    StepLogs(s, e);
    assert s.log <= s'.log;
    forall m, j | 0 <= m < j < |s'.log| && s'.log[m].Released? ensures s'.log[j].track != s'.log[m].track {
      assert s'.log[m] == s.log[m];
      if j < n {
        assert s'.log[j] == s.log[j];
      } else {
        assert HasStopped(s, s.log[m].track);
      }
    }
  }

  /** When the track of a step owns p, any other track that spoke for p has released it. */
  lemma SpokeAndReleased(s: Page, e: Event, i: nat, p: Participant)
    requires OwnershipRecorded(s) && LogExplained(s) && Possible(s, e)
    requires i < |s.log| && s.log[i].Sent? && s.log[i].participant == p && s.log[i].track != e.track
    requires Owns(Step(s, e), e.track, p)
    ensures exists m :: i < m < |s.log| && s.log[m] == Released(p, s.log[i].track)
  {
    var s', u := Step(s, e), s.log[i].track;
    StepMovesOnePump(s, e);
    StepKeepsOwnership(s, e);
    assert !Owns(s', u, p) && !Owns(s, u, p);
  }

  lemma StepKeepsBlocks(s: Page, e: Event)
    requires OwnershipRecorded(s) && LogExplained(s) && InBlocks(s.log) && Possible(s, e)
    ensures InBlocks(Step(s, e).log)
  {
    var s', n := Step(s, e), |s.log|;
    StepLogs(s, e);
    assert s.log <= s'.log;
    forall i, j | 0 <= i < j < |s'.log| && s'.log[i].Sent? && s'.log[j].Sent?
                  && s'.log[i].participant == s'.log[j].participant && s'.log[i].track != s'.log[j].track
      ensures exists m :: i < m < j && s'.log[m] == Released(s'.log[i].participant, s'.log[i].track)
    {
      var p, u := s'.log[i].participant, s'.log[i].track;
      assert s'.log[i] == s.log[i];
      if j < n {
        assert s'.log[j] == s.log[j];
      } else {
        SpokeAndReleased(s, e, i, p);
      }
      var m :| i < m < j && s.log[m] == Released(p, u);
      assert s'.log[m] == Released(p, u);
    }
  }

  lemma {:induction false} RunKeepsInv(run: seq<Page>, n: nat)
    requires Run(run) && n < |run|
    ensures Inv(run[n])
  {
    if n > 0 {
      RunKeepsInv(run, n - 1);
      assert Follows(run, n - 1);
      var e :| Possible(run[n - 1], e) && run[n] == Step(run[n - 1], e);
      StepKeepsOwnership(run[n - 1], e);
      StepKeepsLogExplained(run[n - 1], e);
      StepKeepsBlocks(run[n - 1], e);
      StepKeepsReleases(run[n - 1], e);
    }
  }

  /** Over every interleaving: a participant has at most one owner, which is the one recorded; its
      frames form single-track blocks, each opened only after the previous owner's stream ended; no
      track sends again once it has released. */
  lemma OneTrackSpeaks(run: seq<Page>, n: nat, p: Participant, t: Track, u: Track)
    requires Run(run) && n < |run|
    ensures var s := run[n];
            && (Owns(s, t, p) && Owns(s, u, p) ==> t == u)
            && (Owns(s, t, p) <==> p in s.active && s.active[p] == t)
            && InBlocks(s.log)
            && ReleaseIsFinal(s.log)
  {
    RunKeepsInv(run, n);
  }

  /** However a pump leaves a frame, it has closed it; each frame read is closed once, in order. */
  lemma {:induction false} EveryFrameIsClosed(run: seq<Page>, n: nat)
    requires Run(run) && n < |run|
    ensures |run[n].framesClosed| == run[n].framesRead
    ensures forall i :: 0 <= i < run[n].framesRead ==> run[n].framesClosed[i] == i
  {
    if n > 0 {
      EveryFrameIsClosed(run, n - 1);
      assert Follows(run, n - 1);
      var e :| Possible(run[n - 1], e) && run[n] == Step(run[n - 1], e);
    }
  }

  // ---------------------------------------------------------------------------
  // Proof of voice
  // ---------------------------------------------------------------------------

  function Loudness(sample: real): real { if sample < 0.0 then -sample else sample }

  /** A frame is voiced when one of its samples is loud enough: 300 on the scale of 16-bit sound, where the
      samples go from -1 to 1. */
  ghost predicate Heard(samples: seq<real>) {
    exists i :: 0 <= i < |samples| && Loudness(samples[i]) * 32767.0 >= 300.0
  }

  const VOICE_THRESHOLD := 300.0

  /** The `voiced` of a frame, from its samples. */
  method IsVoiced(samples: seq<real>) returns (voiced: bool)
    ensures voiced <==> Heard(samples)
  {
    var peak := 0.0;
    for i := 0 to |samples|
      invariant peak >= 0.0
      invariant forall j :: 0 <= j < i ==> Loudness(samples[j]) <= peak
      invariant peak == 0.0 || exists j :: 0 <= j < i && Loudness(samples[j]) == peak
    {
      var a := Loudness(samples[i]);
      if a > peak {
        peak := a;
      }
    }
    voiced := !(peak * 32767.0 < VOICE_THRESHOLD);
    if voiced {
      var j :| 0 <= j < |samples| && Loudness(samples[j]) == peak;
    }
  }

  /** A track takes a participant only with a frame in which it can be heard, when nobody has it. */
  lemma OwnershipByVoice(s: Page, e: Event, t: Track, p: Participant)
    requires Possible(s, e) && Owns(Step(s, e), t, p) && !Owns(s, t, p)
    ensures e.GotFrame? && e.track == t && e.voiced && s.pumps[t] == Reading(p, false) && p !in s.active
  {
  }

  /** Whoever owns a participant was heard: some earlier step of the run was a voiced frame of that track,
      read for that participant. */
  lemma {:induction false} OwnerWasHeard(run: seq<Page>, n: nat, t: Track, p: Participant) returns (m: nat, e: Event)
    requires Run(run) && n < |run| && Owns(run[n], t, p)
    ensures m < n && Possible(run[m], e) && run[m + 1] == Step(run[m], e)
    ensures e.GotFrame? && e.track == t && e.voiced && run[m].pumps[t] == Reading(p, false)
  {
    assert Follows(run, n - 1);
    if Owns(run[n - 1], t, p) {
      m, e := OwnerWasHeard(run, n - 1, t, p);
    } else {
      m := n - 1;
      e :| Possible(run[m], e) && run[n] == Step(run[m], e);
      OwnershipByVoice(run[m], e, t, p);
    }
  }

  /** A frame in which a track that owns nothing is not heard changes nothing, unless copying it throws. */
  lemma SilentFrameIsIgnored(s: Page, t: Track, socketOpen: bool, fault: Fault)
    requires t in s.pumps && s.pumps[t].Reading? && !s.pumps[t].owns && !fault.CopyThrows?
    ensures var s' := Step(s, GotFrame(t, false, socketOpen, fault));
            s'.pumps == s.pumps && s'.active == s.active && s'.log == s.log
  {
  }

  /** A track that is heard while another has its participant is given up, and sends nothing. */
  lemma DuplicateIsGivenUp(s: Page, t: Track, socketOpen: bool, fault: Fault)
    requires t in s.pumps && s.pumps[t].Reading? && !s.pumps[t].owns && s.pumps[t].participant in s.active
    requires !fault.CopyThrows?
    ensures var s' := Step(s, GotFrame(t, true, socketOpen, fault));
            && s'.pumps == s.pumps[t := Stopped(s.pumps[t].participant)]
            && s'.active == s.active && s'.log == s.log
  {
  }

  /** A track that owns its participant, or is heard while nobody does, owns it from then on and sends the
      frame, if the socket is open; a send that throws ends its pump with the participant in its hands. */
  lemma OwnerSends(s: Page, t: Track, voiced: bool, socketOpen: bool, fault: Fault)
    requires t in s.pumps && s.pumps[t].Reading? && !fault.CopyThrows?
    requires OwnershipRecorded(s)
    requires s.pumps[t].owns || (voiced && s.pumps[t].participant !in s.active)
    ensures var s', p := Step(s, GotFrame(t, voiced, socketOpen, fault)), s.pumps[t].participant;
            && s'.active == s.active[p := t]
            && s'.pumps == s.pumps[t := if socketOpen && fault.SendThrows? then Failed(p, true) else Reading(p, true)]
            && s'.log == s.log + if socketOpen && fault.NoFault? then [Sent(p, t)] else []
  {
    assert s.pumps[t].owns ==> Owns(s, t, s.pumps[t].participant);
  }

  /** A frame that cannot be copied, or a read that throws, ends the pump as it stood. */
  lemma FaultsEndThePump(s: Page, t: Track, voiced: bool, socketOpen: bool)
    requires t in s.pumps && s.pumps[t].Reading?
    ensures var failed := s.pumps[t := Failed(s.pumps[t].participant, s.pumps[t].owns)];
            var copied, read := Step(s, GotFrame(t, voiced, socketOpen, CopyThrows)), Step(s, ReadThrows(t));
            && copied.pumps == failed && copied.active == s.active && copied.log == s.log
            && read.pumps == failed && read.active == s.active && read.log == s.log
  {
  }

  /** The end of the stream stops the pump; an owner gives its participant back, and says so. */
  lemma EndGivesBack(s: Page, t: Track)
    requires t in s.pumps && s.pumps[t].Reading? && OwnershipRecorded(s)
    ensures var s', p := Step(s, StreamEnded(t)), s.pumps[t].participant;
            && s'.pumps == s.pumps[t := Stopped(p)]
            && s'.active == (if s.pumps[t].owns then s.active - {p} else s.active)
            && s'.log == s.log + if s.pumps[t].owns then [Released(p, t)] else []
  {
    assert s.pumps[t].owns ==> Owns(s, t, s.pumps[t].participant);
  }

  /** A track is piped once, and the mixed stream never; its identity, or failing that its stream, is the
      participant it reads for; an unidentified placeholder is dropped once some track has been identified. */
  lemma TracksArePiped(s: Page, t: Track, mixed: bool, identity: Option<Participant>, fallback: Participant,
                       placeholder: bool)
    ensures var s' := Step(s, Announced(t, mixed));
            s' == if mixed || t in s.pumps then s else s.(pumps := s.pumps[t := Resolving])
    ensures t in s.pumps && s.pumps[t].Resolving? ==>
              var s' := Step(s, Identified(t, identity, fallback, placeholder));
              && s'.active == s.active && s'.log == s.log
              && (s'.anyIdentityResolved <==> s.anyIdentityResolved || identity.Some?)
              && (identity.Some? ==> s'.pumps == s.pumps[t := Reading(identity.value, false)])
              && (identity.None? ==>
                    s'.pumps == s.pumps[t := if placeholder && s.anyIdentityResolved then Dropped
                                             else Reading(fallback, false)])
  {
  }

  // ---------------------------------------------------------------------------
  // When a participant can still be heard
  // ---------------------------------------------------------------------------

  function SentFor(log: seq<LogEntry>, p: Participant): seq<LogEntry> {
    if log == [] then [] else
      var n := |log| - 1;
      if log[n].Sent? && log[n].participant == p then SentFor(log[..n], p) + [log[n]] else SentFor(log[..n], p)
  }

  /** An exception has ended the pump of the track that owns the participant. */
  predicate LostTo(s: Page, p: Participant, t: Track) {
    t in s.pumps && s.pumps[t] == Failed(p, true)
  }

  /** Whatever happens from here on, nothing more is sent for the participant. */
  ghost predicate Silenced(s: Page, p: Participant) {
    forall run: seq<Page> :: Linked(run) && run[0] == s ==> SentFor(run[|run| - 1].log, p) == SentFor(s.log, p)
  }

  lemma FailedOwnerBlocks(s: Page, e: Event, t: Track, p: Participant)
    requires OwnershipRecorded(s) && Possible(s, e) && LostTo(s, p, t)
    ensures LostTo(Step(s, e), p, t) && SentFor(Step(s, e).log, p) == SentFor(s.log, p)
  {
    var s' := Step(s, e);
    StepLogs(s, e);
    StepKeepsOwnership(s, e);
    assert Owns(s, t, p) && LostTo(s', p, t) && Owns(s', t, p);
    if s'.log != s.log {
      assert s'.log[..|s.log|] == s.log;
    }
  }

  lemma {:induction false} FailedOwnerSilences(run: seq<Page>, n: nat, t: Track, p: Participant)
    requires Linked(run) && n < |run| && OwnershipRecorded(run[0]) && LostTo(run[0], p, t)
    ensures OwnershipRecorded(run[n]) && LostTo(run[n], p, t)
    ensures SentFor(run[n].log, p) == SentFor(run[0].log, p)
  {
    if n > 0 {
      FailedOwnerSilences(run, n - 1, t, p);
      assert Follows(run, n - 1);
      var e :| Possible(run[n - 1], e) && run[n] == Step(run[n - 1], e);
      StepKeepsOwnership(run[n - 1], e);
      FailedOwnerBlocks(run[n - 1], e, t, p);
    }
  }

  function Voice(t: Track): Event { GotFrame(t, true, true, NoFault) }

  lemma OneStep(s: Page, e: Event, rest: seq<Page>)
    requires Possible(s, e) && Linked(rest) && rest[0] == Step(s, e)
    ensures Linked([s] + rest)
  {
    var run := [s] + rest;
    assert Next(s, rest[0]);
    forall i | 0 <= i < |run| - 1 ensures Follows(run, i) {
      if i > 0 {
        assert Follows(rest, i - 1);
      }
    }
  }

  lemma SentOnce(log: seq<LogEntry>, p: Participant, t: Track)
    ensures SentFor(log + [Sent(p, t)], p) == SentFor(log, p) + [Sent(p, t)]
  {
    assert (log + [Sent(p, t)])[..|log|] == log;
  }

  lemma NewTrack(tracks: set<Track>) returns (t: Track)
    ensures forall u :: u in tracks ==> u < t
    decreases |tracks|
  {
    t := 0;
    if u :| u in tracks {
      var rest := tracks - {u};
      var v := NewTrack(rest);
      assert tracks == rest + {u};
      t := if u >= v then u + 1 else v;
    }
  }

  /** A pump that reads for the participant, and owns it or finds it free, is heard at its next voiced frame. */
  lemma VoiceIsHeard(s: Page, p: Participant, t: Track) returns (run: seq<Page>)
    requires t in s.pumps && s.pumps[t].Reading? && s.pumps[t].participant == p
    requires s.pumps[t].owns || p !in s.active
    ensures Linked(run) && run[0] == s && SentFor(run[|run| - 1].log, p) != SentFor(s.log, p)
  {
    var heard := Step(s, Voice(t));
    OneStep(s, Voice(t), [heard]);
    SentOnce(s.log, p, t);
    run := [s] + [heard];
  }

  /** A participant that nobody owns is heard through a new track. */
  lemma NewTrackIsHeard(s: Page, p: Participant) returns (run: seq<Page>)
    requires p !in s.active
    ensures Linked(run) && run[0] == s && SentFor(run[|run| - 1].log, p) != SentFor(s.log, p)
  {
    var t := NewTrack(s.pumps.Keys);
    var announced := Step(s, Announced(t, false));
    var identity := Identified(t, Some(p), p, false);
    var reading := Step(announced, identity);
    var rest := VoiceIsHeard(reading, p, t);
    OneStep(announced, identity, rest);
    OneStep(s, Announced(t, false), [announced] + rest);
    run := [s] + ([announced] + rest);
  }

  /** In any page that can be reached, a participant will never be heard again if and only if an
      exception has ended the pump of the track that owns it. */
  lemma SilencedExactly(run: seq<Page>, n: nat, p: Participant)
    requires Run(run) && n < |run|
    ensures Silenced(run[n], p) <==> exists t :: LostTo(run[n], p, t)
  {
    var s := run[n];
    RunKeepsInv(run, n);
    if t :| LostTo(s, p, t) {
      forall later: seq<Page> | Linked(later) && later[0] == s
        ensures SentFor(later[|later| - 1].log, p) == SentFor(s.log, p)
      {
        FailedOwnerSilences(later, |later| - 1, t, p);
      }
    } else if p in s.active {
      var t := s.active[p];
      assert Owns(s, t, p) && !LostTo(s, p, t);
      var later := VoiceIsHeard(s, p, t);
    } else {
      var later := NewTrackIsHeard(s, p);
    }
  }

  /** And it does happen: a track speaks for the participant, then copying a frame throws. */
  lemma SilenceIsReached(p: Participant, t: Track) returns (run: seq<Page>)
    ensures Run(run) && LostTo(run[|run| - 1], p, t) && SentFor(run[|run| - 1].log, p) == [Sent(p, t)]
  {
    var throws := GotFrame(t, true, true, CopyThrows);
    var announced := Step(BLANK, Announced(t, false));
    var reading := Step(announced, Identified(t, Some(p), p, false));
    var heard := Step(reading, Voice(t));
    var lost := Step(heard, throws);
    OneStep(heard, throws, [lost]);
    OneStep(reading, Voice(t), [heard] + [lost]);
    OneStep(announced, Identified(t, Some(p), p, false), [reading] + ([heard] + [lost]));
    OneStep(BLANK, Announced(t, false), [announced] + ([reading] + ([heard] + [lost])));
    run := [BLANK] + ([announced] + ([reading] + ([heard] + [lost])));
    SentOnce([], p, t);
    assert lost.log == [] + [Sent(p, t)];
  }
}
