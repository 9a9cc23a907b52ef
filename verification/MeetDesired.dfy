/**
 Wanted meetings and users against the subscriptions that exist (connector_service/meet_desired.py).
 A round lists what exists and creates what is missing; nothing is remembered from round to round.
 */
module MeetDesired {
  import opened Wrappers

  // ---------------------------------------------------------------------------
  // The model
  // ---------------------------------------------------------------------------

  /** A subscription as listed; the state is upper-cased, and "" when it is missing. */
  datatype Subscription = Subscription(target: string, state: string) {
    predicate Covers() { (state == "" || state == "ACTIVE") && target != "" }
  }

  function CoveredTargets(subs: seq<Subscription>): set<string> {
    set s | s in subs && s.Covers() :: s.target
  }

  /** Meetings are watched by their space, people by their account. */
  datatype Kind = Spaces | Users

  function TargetOf(kind: Kind, id: Option<string>): Option<string> {
    if id.None? || id.value == "" then None
    else Some((if kind.Spaces? then "//meet.googleapis.com/spaces/" else "//cloudidentity.googleapis.com/users/")
              + AfterLastSlash(id.value))
  }

  datatype ListReply = ListAnswers | ListRefused | ListRaises

  datatype SettingReply = TurnedOn | LeftOff | SettingRaises

  /** A creation that raises may have reached the server all the same. */
  datatype CreateReply = Created | CreatedButRaised | NotCreated

  /** What the services answer while entry number i is handled; `resolves` is false when looking the
      entry up raises, and `setting` is asked only when there is a settings client. */
  datatype Answer = Answer(resolves: bool, setting: SettingReply, reply: CreateReply)

  type Directory = string -> Option<string>

  function Look(kind: Kind, directory: Directory, entry: string, a: Answer): Option<string> {
    if a.resolves then TargetOf(kind, directory(entry)) else None
  }

  datatype Problem = InventoryImpossible | EntryFailed(entry: string) | AutoRecordingRefused(entry: string)

  /** `extra` is a set: the source sorts it for display. */
  datatype EnsureOutcome = EnsureOutcome(
    wanted: nat,
    already: seq<string>,
    created: seq<string>,
    failed: seq<Problem>,
    extra: set<string>,
    autoRecording: seq<string>)

  function FreshOutcome(wanted: nat): EnsureOutcome {
    EnsureOutcome(wanted, [], [], [], {}, [])
  }

  datatype Round = Round(outcome: EnsureOutcome, subs: seq<Subscription>, demanded: set<string>)

  function AskRecording(out: EnsureOutcome, entry: string, settings: bool, reply: SettingReply): EnsureOutcome {
    if !settings || reply.LeftOff? then out
    else if reply.TurnedOn? then out.(autoRecording := out.autoRecording + [entry])
    else out.(failed := out.failed + [AutoRecordingRefused(entry)])
  }

  function Received(subs: seq<Subscription>, target: string, reply: CreateReply): seq<Subscription> {
    if reply.NotCreated? then subs else subs + [Subscription(target, "ACTIVE")]
  }

  function OnEntry(r: Round, covered: set<string>, entry: string, target: Option<string>, settings: bool,
                   a: Answer): Round {
    if target.None? then r.(outcome := r.outcome.(failed := r.outcome.failed + [EntryFailed(entry)]))
    else
      var out := AskRecording(r.outcome, entry, settings, a.setting);
      var demanded := r.demanded + {target.value};
      if target.value in covered then Round(out.(already := out.already + [entry]), r.subs, demanded)
      else Round(if a.reply.Created? then out.(created := out.created + [entry])
                 else out.(failed := out.failed + [EntryFailed(entry)]),
                 Received(r.subs, target.value, a.reply), demanded)
  }

  /** Everything a round depends on besides the subscriptions. */
  datatype Setup = Setup(kind: Kind, directory: Directory, settings: bool, wanted: seq<string>, listing: ListReply,
                         answers: nat -> Answer) {
    function TargetAt(i: nat): Option<string>
      requires i < |wanted|
    {
      Look(kind, directory, wanted[i], answers(i))
    }
  }

  function OnEntries(subs: seq<Subscription>, s: Setup, n: nat): Round
    requires n <= |s.wanted|
  {
    if n == 0 then Round(FreshOutcome(|s.wanted|), subs, {})
    else OnEntry(OnEntries(subs, s, n - 1), CoveredTargets(subs), s.wanted[n - 1], s.TargetAt(n - 1), s.settings,
                 s.answers(n - 1))
  }

  /** The outcome is None when an error of another kind leaves the listing. */
  function RoundOf(subs: seq<Subscription>, s: Setup): (Option<EnsureOutcome>, seq<Subscription>) {
    if s.wanted == [] then (Some(FreshOutcome(0)), subs)
    else match s.listing
         case ListRaises => (None, subs)
         case ListRefused => (Some(FreshOutcome(|s.wanted|).(failed := [InventoryImpossible])), subs)
         case ListAnswers =>
           var r := OnEntries(subs, s, |s.wanted|);
           (Some(r.outcome.(extra := if s.kind.Spaces? then CoveredTargets(subs) - r.demanded else {})), r.subs)
  }

  class EventsClient {
    var subscriptions: seq<Subscription>

    constructor (subscriptions: seq<Subscription>)
      ensures this.subscriptions == subscriptions
    {
      this.subscriptions := subscriptions;
    }

    method Create(target: string, reply: CreateReply) returns (raised: bool)
      modifies this
      ensures subscriptions == Received(old(subscriptions), target, reply)
      ensures raised <==> !reply.Created?
    {
      if !reply.NotCreated? {
        subscriptions := subscriptions + [Subscription(target, "ACTIVE")];
      }
      raised := !reply.Created?;
    }
  }

  method EnsureSubscriptions(client: EventsClient, s: Setup) returns (result: Option<EnsureOutcome>)
    requires s.kind.Spaces?
    modifies client
    ensures (result, client.subscriptions) == RoundOf(old(client.subscriptions), s)
  {
    var outcome := FreshOutcome(|s.wanted|);
    if s.wanted == [] {
      return Some(outcome);
    }
    if s.listing.ListRaises? {
      return None;
    }
    if s.listing.ListRefused? {
      return Some(outcome.(failed := [InventoryImpossible]));
    }
    ghost var subs := client.subscriptions;
    var covered := CoveredTargets(client.subscriptions);
    var demanded := {};
    for i := 0 to |s.wanted|
      invariant Round(outcome, client.subscriptions, demanded) == OnEntries(subs, s, i)
    {
      var entry, a := s.wanted[i], s.answers(i);
      var target := Look(Spaces, s.directory, entry, a);
      if target.None? {
        outcome := outcome.(failed := outcome.failed + [EntryFailed(entry)]);
        continue;
      }
      demanded := demanded + {target.value};
      if s.settings {
        if a.setting.TurnedOn? {
          outcome := outcome.(autoRecording := outcome.autoRecording + [entry]);
        } else if a.setting.SettingRaises? {
          outcome := outcome.(failed := outcome.failed + [AutoRecordingRefused(entry)]);
        }
      }
      if target.value in covered {
        outcome := outcome.(already := outcome.already + [entry]);
        continue;
      }
      var raised := client.Create(target.value, a.reply);
      if raised {
        outcome := outcome.(failed := outcome.failed + [EntryFailed(entry)]);
        continue;
      }
      outcome := outcome.(created := outcome.created + [entry]);
    }
    outcome := outcome.(extra := covered - demanded);
    result := Some(outcome);
  }

  /** For people there is no recording to turn on, and nothing is reported as extra. */
  method EnsureUserSubscriptions(client: EventsClient, s: Setup) returns (result: Option<EnsureOutcome>)
    requires s.kind.Users? && !s.settings
    modifies client
    ensures (result, client.subscriptions) == RoundOf(old(client.subscriptions), s)
  {
    var outcome := FreshOutcome(|s.wanted|);
    if s.wanted == [] {
      return Some(outcome);
    }
    if s.listing.ListRaises? {
      return None;
    }
    if s.listing.ListRefused? {
      return Some(outcome.(failed := [InventoryImpossible]));
    }
    ghost var subs := client.subscriptions;
    ghost var demanded := {};
    var covered := CoveredTargets(client.subscriptions);
    for i := 0 to |s.wanted|
      invariant Round(outcome, client.subscriptions, demanded) == OnEntries(subs, s, i)
      invariant outcome.extra == {}
    {
      var entry, a := s.wanted[i], s.answers(i);
      var target := Look(Users, s.directory, entry, a);
      if target.None? {
        outcome := outcome.(failed := outcome.failed + [EntryFailed(entry)]);
        continue;
      }
      demanded := demanded + {target.value};
      if target.value in covered {
        outcome := outcome.(already := outcome.already + [entry]);
        continue;
      }
      var raised := client.Create(target.value, a.reply);
      if raised {
        outcome := outcome.(failed := outcome.failed + [EntryFailed(entry)]);
        continue;
      }
      outcome := outcome.(created := outcome.created + [entry]);
    }
    result := Some(outcome);
  }

  // ---------------------------------------------------------------------------
  // One round
  // ---------------------------------------------------------------------------

  function EntriesIn(problems: seq<Problem>): multiset<string> {
    if problems == [] then multiset{} else
      var n := |problems| - 1;
      EntriesIn(problems[..n]) + if problems[n].EntryFailed? then multiset{problems[n].entry} else multiset{}
  }

  lemma EntriesInMore(problems: seq<Problem>, p: Problem)
    ensures EntriesIn(problems + [p]) == EntriesIn(problems) + if p.EntryFailed? then multiset{p.entry} else multiset{}
  {
    assert (problems + [p])[..|problems|] == problems;
  }

  function Fates(out: EnsureOutcome): multiset<string> {
    multiset(out.already) + multiset(out.created) + EntriesIn(out.failed)
  }

  lemma FailedFateMore(out: EnsureOutcome, p: Problem)
    ensures Fates(out.(failed := out.failed + [p]))
            == Fates(out) + if p.EntryFailed? then multiset{p.entry} else multiset{}
  {
    EntriesInMore(out.failed, p);
  }

  lemma AlreadyFateMore(out: EnsureOutcome, entry: string)
    ensures Fates(out.(already := out.already + [entry])) == Fates(out) + multiset{entry}
  {
  }

  lemma CreatedFateMore(out: EnsureOutcome, entry: string)
    ensures Fates(out.(created := out.created + [entry])) == Fates(out) + multiset{entry}
  {
  }

  lemma AskingSettlesNoFate(out: EnsureOutcome, entry: string, settings: bool, reply: SettingReply)
    ensures Fates(AskRecording(out, entry, settings, reply)) == Fates(out)
  {
    FailedFateMore(out, AutoRecordingRefused(entry));
  }

  lemma OneFateMore(r: Round, covered: set<string>, entry: string, target: Option<string>, settings: bool, a: Answer)
    ensures Fates(OnEntry(r, covered, entry, target, settings, a).outcome) == Fates(r.outcome) + multiset{entry}
  {
    if target.None? {
      FailedFateMore(r.outcome, EntryFailed(entry));
    } else {
      AskingSettlesNoFate(r.outcome, entry, settings, a.setting);
      var out := AskRecording(r.outcome, entry, settings, a.setting);
      AlreadyFateMore(out, entry);
      CreatedFateMore(out, entry);
      FailedFateMore(out, EntryFailed(entry));
    }
  }

  lemma {:induction false} CountsUp(f: nat -> multiset<string>, s: seq<string>, n: nat)
    requires n <= |s| && f(0) == multiset{}
    requires forall k: nat :: k < |s| ==> f(k + 1) == f(k) + multiset{s[k]}
    ensures f(n) == multiset(s[..n])
  {
    if n > 0 {
      CountsUp(f, s, n - 1);
      assert s[..n] == s[..n - 1] + [s[n - 1]];
      assert f(n - 1 + 1) == f(n - 1) + multiset{s[n - 1]};
    }
  }

  function FatesUpTo(subs: seq<Subscription>, s: Setup, n: nat): multiset<string> {
    if n <= |s.wanted| then Fates(OnEntries(subs, s, n).outcome) else multiset{}
  }

  lemma FateStep(subs: seq<Subscription>, s: Setup, n: nat)
    requires n < |s.wanted|
    ensures FatesUpTo(subs, s, n + 1) == FatesUpTo(subs, s, n) + multiset{s.wanted[n]}
  {
    OneFateMore(OnEntries(subs, s, n), CoveredTargets(subs), s.wanted[n], s.TargetAt(n), s.settings, s.answers(n));
  }

  /** When the listing answers, every wanted entry, counted as often as it is written, is reported
      once: as already covered, as created, or as failed. A refused recording comes on top. */
  lemma EachEntryHasOneFate(subs: seq<Subscription>, s: Setup)
    requires s.listing.ListAnswers?
    ensures RoundOf(subs, s).0.Some? && Fates(RoundOf(subs, s).0.value) == multiset(s.wanted)
  {
    forall k: nat | k < |s.wanted|
      ensures FatesUpTo(subs, s, k + 1) == FatesUpTo(subs, s, k) + multiset{s.wanted[k]}
    {
      FateStep(subs, s, k);
    }
    CountsUp((k: nat) => FatesUpTo(subs, s, k), s.wanted, |s.wanted|);
    assert s.wanted[..|s.wanted|] == s.wanted;
  }

  lemma EntryReport(r: Round, covered: set<string>, entry: string, target: Option<string>, settings: bool, a: Answer,
                    any: string)
    ensures var before, after := r.outcome, OnEntry(r, covered, entry, target, settings, a).outcome;
            && (any in after.already <==>
                  any in before.already || (any == entry && target.Some? && target.value in covered))
            && (any in after.created <==>
                  any in before.created
                  || (any == entry && target.Some? && target.value !in covered && a.reply.Created?))
            && (EntryFailed(any) in after.failed <==>
                  EntryFailed(any) in before.failed
                  || (any == entry && (target.None? || (target.value !in covered && !a.reply.Created?))))
  {
  }

  lemma {:induction false} Accumulates(holds: nat -> bool, adds: nat -> bool, n: nat)
    requires !holds(0) && forall k: nat :: k < n ==> (holds(k + 1) <==> holds(k) || adds(k))
    ensures holds(n) <==> exists i: nat :: i < n && adds(i)
  {
    if n > 0 {
      Accumulates(holds, adds, n - 1);
      assert holds(n - 1 + 1) <==> holds(n - 1) || adds(n - 1);
    }
  }

  ghost predicate ReportedCovered(subs: seq<Subscription>, s: Setup, entry: string, n: nat) {
    n <= |s.wanted| && entry in OnEntries(subs, s, n).outcome.already
  }

  ghost predicate ReportedCreated(subs: seq<Subscription>, s: Setup, entry: string, n: nat) {
    n <= |s.wanted| && entry in OnEntries(subs, s, n).outcome.created
  }

  ghost predicate ReportedFailed(subs: seq<Subscription>, s: Setup, entry: string, n: nat) {
    n <= |s.wanted| && EntryFailed(entry) in OnEntries(subs, s, n).outcome.failed
  }

  ghost predicate IsCovered(subs: seq<Subscription>, s: Setup, entry: string, i: nat) {
    i < |s.wanted| && s.wanted[i] == entry && s.TargetAt(i).Some? && s.TargetAt(i).value in CoveredTargets(subs)
  }

  ghost predicate IsCreated(subs: seq<Subscription>, s: Setup, entry: string, i: nat) {
    && i < |s.wanted| && s.wanted[i] == entry
    && s.TargetAt(i).Some? && s.TargetAt(i).value !in CoveredTargets(subs) && s.answers(i).reply.Created?
  }

  ghost predicate IsLost(subs: seq<Subscription>, s: Setup, entry: string, i: nat) {
    && i < |s.wanted| && s.wanted[i] == entry
    && (s.TargetAt(i).None? || (s.TargetAt(i).value !in CoveredTargets(subs) && !s.answers(i).reply.Created?))
  }

  lemma ReportStep(subs: seq<Subscription>, s: Setup, entry: string, n: nat)
    requires n < |s.wanted|
    ensures ReportedCovered(subs, s, entry, n + 1)
            <==> ReportedCovered(subs, s, entry, n) || IsCovered(subs, s, entry, n)
    ensures ReportedCreated(subs, s, entry, n + 1)
            <==> ReportedCreated(subs, s, entry, n) || IsCreated(subs, s, entry, n)
    ensures ReportedFailed(subs, s, entry, n + 1) <==> ReportedFailed(subs, s, entry, n) || IsLost(subs, s, entry, n)
  {
    EntryReport(OnEntries(subs, s, n), CoveredTargets(subs), s.wanted[n], s.TargetAt(n), s.settings, s.answers(n),
                entry);
  }

  lemma CoveredReport(subs: seq<Subscription>, s: Setup, entry: string)
    ensures ReportedCovered(subs, s, entry, |s.wanted|) <==> exists i :: IsCovered(subs, s, entry, i)
  {
    forall k: nat | k < |s.wanted|
      ensures ReportedCovered(subs, s, entry, k + 1)
              <==> ReportedCovered(subs, s, entry, k) || IsCovered(subs, s, entry, k)
    {
      ReportStep(subs, s, entry, k);
    }
    var adds := (k: nat) => IsCovered(subs, s, entry, k);
    Accumulates((k: nat) => ReportedCovered(subs, s, entry, k), adds, |s.wanted|);
    assert forall i: nat :: IsCovered(subs, s, entry, i) ==> adds(i);
  }

  lemma CreatedReport(subs: seq<Subscription>, s: Setup, entry: string)
    ensures ReportedCreated(subs, s, entry, |s.wanted|) <==> exists i :: IsCreated(subs, s, entry, i)
  {
    forall k: nat | k < |s.wanted|
      ensures ReportedCreated(subs, s, entry, k + 1)
              <==> ReportedCreated(subs, s, entry, k) || IsCreated(subs, s, entry, k)
    {
      ReportStep(subs, s, entry, k);
    }
    var adds := (k: nat) => IsCreated(subs, s, entry, k);
    Accumulates((k: nat) => ReportedCreated(subs, s, entry, k), adds, |s.wanted|);
    assert forall i: nat :: IsCreated(subs, s, entry, i) ==> adds(i);
  }

  lemma FailedReport(subs: seq<Subscription>, s: Setup, entry: string)
    ensures ReportedFailed(subs, s, entry, |s.wanted|) <==> exists i :: IsLost(subs, s, entry, i)
  {
    forall k: nat | k < |s.wanted|
      ensures ReportedFailed(subs, s, entry, k + 1) <==> ReportedFailed(subs, s, entry, k) || IsLost(subs, s, entry, k)
    {
      ReportStep(subs, s, entry, k);
    }
    var adds := (k: nat) => IsLost(subs, s, entry, k);
    Accumulates((k: nat) => ReportedFailed(subs, s, entry, k), adds, |s.wanted|);
    assert forall i: nat :: IsLost(subs, s, entry, i) ==> adds(i);
  }

  /** The report is true: covered means an active subscription was listed for the entry's target,
      created that none was and the creation returned, failed that the lookup or the creation raised. */
  lemma ReportIsTrue(subs: seq<Subscription>, s: Setup, entry: string)
    requires s.listing.ListAnswers?
    ensures var out := RoundOf(subs, s).0.value;
            && (entry in out.already <==> exists i :: IsCovered(subs, s, entry, i))
            && (entry in out.created <==> exists i :: IsCreated(subs, s, entry, i))
            && (EntryFailed(entry) in out.failed <==> exists i :: IsLost(subs, s, entry, i))
  {
    CoveredReport(subs, s, entry);
    CreatedReport(subs, s, entry);
    FailedReport(subs, s, entry);
  }

  /** The server gets a request for `target` from entry i. */
  ghost predicate RequestsAt(subs: seq<Subscription>, s: Setup, target: string, i: nat)
    requires i < |s.wanted|
  {
    s.TargetAt(i) == Some(target) && target !in CoveredTargets(subs) && !s.answers(i).reply.NotCreated?
  }

  ghost function Requests(subs: seq<Subscription>, s: Setup, target: string, n: nat): nat
    requires n <= |s.wanted|
  {
    if n == 0 then 0 else Requests(subs, s, target, n - 1) + if RequestsAt(subs, s, target, n - 1) then 1 else 0
  }

  function CountFor(subs: seq<Subscription>, target: string): nat {
    if subs == [] then 0 else
      var n := |subs| - 1;
      CountFor(subs[..n], target) + if subs[n].Covers() && subs[n].target == target then 1 else 0
  }

  lemma CountForMore(subs: seq<Subscription>, sub: Subscription, target: string)
    ensures CountFor(subs + [sub], target)
            == CountFor(subs, target) + if sub.Covers() && sub.target == target then 1 else 0
  {
    assert (subs + [sub])[..|subs|] == subs;
  }

  lemma {:induction false} CountIsCoverage(subs: seq<Subscription>, target: string)
    ensures CountFor(subs, target) > 0 <==> target in CoveredTargets(subs)
  {
    if subs != [] {
      var n := |subs| - 1;
      CountIsCoverage(subs[..n], target);
      assert subs == subs[..n] + [subs[n]];
      assert forall x :: x in subs <==> x in subs[..n] || x == subs[n];
    }
  }

  /** What entry number n - 1 does to the server. */
  lemma ServerStep(subs: seq<Subscription>, s: Setup, n: nat)
    requires 0 < n <= |s.wanted|
    ensures var before, after, found := OnEntries(subs, s, n - 1).subs, OnEntries(subs, s, n).subs, s.TargetAt(n - 1);
            if found.Some? && RequestsAt(subs, s, found.value, n - 1)
            then found.value != "" && after == before + [Subscription(found.value, "ACTIVE")]
            else after == before
  {
  }

  lemma {:induction false} RequestsSoFar(subs: seq<Subscription>, s: Setup, target: string, n: nat)
    requires n <= |s.wanted|
    ensures CountFor(OnEntries(subs, s, n).subs, target) == CountFor(subs, target) + Requests(subs, s, target, n)
  {
    if n > 0 {
      RequestsSoFar(subs, s, target, n - 1);
      ServerStep(subs, s, n);
      var before, found := OnEntries(subs, s, n - 1).subs, s.TargetAt(n - 1);
      if found.Some? {
        CountForMore(before, Subscription(found.value, "ACTIVE"), target);
      }
    }
  }

  /** How many subscriptions a target has after a round: those it had, and one more for each entry that
      leads to it and whose creation reached the server, if it had none. */
  lemma SubscriptionsAfterRound(subs: seq<Subscription>, s: Setup, target: string)
    requires s.listing.ListAnswers?
    ensures CountFor(RoundOf(subs, s).1, target) == CountFor(subs, target) + Requests(subs, s, target, |s.wanted|)
    ensures CountFor(subs, target) > 0 ==> CountFor(RoundOf(subs, s).1, target) == CountFor(subs, target)
  {
    RequestsSoFar(subs, s, target, |s.wanted|);
    CountIsCoverage(subs, target);
    if CountFor(subs, target) > 0 {
      NoRequestWhenCovered(subs, s, target, |s.wanted|);
    }
  }

  lemma {:induction false} NoRequestWhenCovered(subs: seq<Subscription>, s: Setup, target: string, n: nat)
    requires n <= |s.wanted| && target in CoveredTargets(subs)
    ensures Requests(subs, s, target, n) == 0
  {
    if n > 0 {
      NoRequestWhenCovered(subs, s, target, n - 1);
    }
  }

  lemma {:induction false} RequestsPositive(subs: seq<Subscription>, s: Setup, target: string, n: nat)
    requires n <= |s.wanted|
    ensures Requests(subs, s, target, n) > 0 <==> exists i :: 0 <= i < n && RequestsAt(subs, s, target, i)
  {
    if n > 0 {
      RequestsPositive(subs, s, target, n - 1);
    }
  }

  ghost predicate TwoRequests(subs: seq<Subscription>, s: Setup, target: string, n: nat)
    requires n <= |s.wanted|
  {
    exists i, j :: 0 <= i < j < n && RequestsAt(subs, s, target, i) && RequestsAt(subs, s, target, j)
  }

  lemma {:induction false} RequestsTwice(subs: seq<Subscription>, s: Setup, target: string, n: nat)
    requires n <= |s.wanted|
    ensures Requests(subs, s, target, n) > 1 <==> TwoRequests(subs, s, target, n)
  {
    if n > 0 {
      RequestsTwice(subs, s, target, n - 1);
      RequestsPositive(subs, s, target, n - 1);
    }
  }

  /** A round leaves an uncovered target with several subscriptions exactly when two entries lead to it
      and both creations reach the server: what is covered is not looked up again within the round. */
  lemma OneSubscriptionPerTargetExactly(subs: seq<Subscription>, s: Setup, target: string)
    requires s.listing.ListAnswers? && target !in CoveredTargets(subs)
    ensures CountFor(RoundOf(subs, s).1, target) <= 1 <==> !TwoRequests(subs, s, target, |s.wanted|)
  {
    SubscriptionsAfterRound(subs, s, target);
    CountIsCoverage(subs, target);
    RequestsTwice(subs, s, target, |s.wanted|);
  }

  /** The same meeting written in two ways is subscribed to twice. */
  lemma SharedTargetIsSubscribedTwice() returns (s: Setup, target: string)
    ensures s.listing.ListAnswers? && |s.wanted| == 2 && s.wanted[0] != s.wanted[1]
    ensures RoundOf([], s).0.Some? && RoundOf([], s).0.value.created == s.wanted
    ensures CountFor(RoundOf([], s).1, target) == 2
  {
    s := Setup(Spaces, e => Some("x"), false, ["abc", "spaces/x"], ListAnswers, i => Answer(true, LeftOff, Created));
    target := TargetOf(Spaces, Some("x")).value;
    var r1, r2 := OnEntries([], s, 1), OnEntries([], s, 2);
    assert CoveredTargets([]) == {};
    assert s.TargetAt(0) == Some(target) && s.TargetAt(1) == Some(target);
    assert s.wanted[0] == "abc" && s.wanted[1] == "spaces/x" && s.wanted[0][0] != s.wanted[1][0];
    assert OnEntries([], s, 0).subs == [] && OnEntries([], s, 0).outcome.created == [];
    assert r1.outcome.created == [s.wanted[0]];
    assert r2.outcome.created == [s.wanted[0], s.wanted[1]] == s.wanted;
    SubscriptionsAfterRound([], s, target);
    assert RequestsAt([], s, target, 0) && RequestsAt([], s, target, 1);
    assert Requests([], s, target, 0) == 0 && Requests([], s, target, 1) == 1;
  }

  /** The subscription answers one of the first n entries. */
  ghost predicate AddedBy(subs: seq<Subscription>, s: Setup, n: nat, sub: Subscription)
    requires n <= |s.wanted|
  {
    sub.state == "ACTIVE" && exists i :: 0 <= i < n && RequestsAt(subs, s, sub.target, i)
  }

  lemma {:induction false} NothingRemovedSoFar(subs: seq<Subscription>, s: Setup, n: nat)
    requires n <= |s.wanted|
    ensures subs <= OnEntries(subs, s, n).subs
    ensures forall sub :: sub in OnEntries(subs, s, n).subs[|subs|..] ==> AddedBy(subs, s, n, sub)
  {
    if n > 0 {
      NothingRemovedSoFar(subs, s, n - 1);
      ServerStep(subs, s, n);
      var before, after := OnEntries(subs, s, n - 1).subs, OnEntries(subs, s, n).subs;
      assert forall sub :: AddedBy(subs, s, n - 1, sub) ==> AddedBy(subs, s, n, sub);
      if after != before {
        var last := after[|before|];
        assert after[|subs|..] == before[|subs|..] + [last];
        assert RequestsAt(subs, s, last.target, n - 1);
      }
    }
  }

  /** A round never removes or changes a subscription, and adds one only for a wanted entry whose
      target nothing covered. */
  lemma NothingIsRemoved(subs: seq<Subscription>, s: Setup)
    ensures subs <= RoundOf(subs, s).1
    ensures forall sub :: sub in RoundOf(subs, s).1[|subs|..] ==> AddedBy(subs, s, |s.wanted|, sub)
  {
    NothingRemovedSoFar(subs, s, |s.wanted|);
  }

  lemma {:induction false} DemandedSoFar(subs: seq<Subscription>, s: Setup, n: nat, target: string)
    requires n <= |s.wanted|
    ensures target in OnEntries(subs, s, n).demanded <==> exists i :: 0 <= i < n && s.TargetAt(i) == Some(target)
  {
    if n > 0 {
      DemandedSoFar(subs, s, n - 1, target);
    }
  }

  /** What is reported as extra: covered, and led to by no wanted entry. */
  lemma ExtraIsUnasked(subs: seq<Subscription>, s: Setup, target: string)
    requires s.listing.ListAnswers? && s.kind.Spaces? && s.wanted != []
    ensures target in RoundOf(subs, s).0.value.extra <==>
            target in CoveredTargets(subs) && forall i :: 0 <= i < |s.wanted| ==> s.TargetAt(i) != Some(target)
  {
    DemandedSoFar(subs, s, |s.wanted|, target);
  }

  // ---------------------------------------------------------------------------
  // From the fields
  // ---------------------------------------------------------------------------

  /** A target is covered by a subscription to it that is active, or says nothing of its state. */
  lemma CoveredExactly(subs: seq<Subscription>, target: string)
    ensures target in CoveredTargets(subs) <==>
              target != "" && exists sub :: sub in subs && sub.target == target && sub.state in ["", "ACTIVE"]
  {
    assert forall sub: Subscription :: sub.state in ["", "ACTIVE"] <==> sub.state == "" || sub.state == "ACTIVE";
    forall sub | sub in subs && sub.target == target && target != "" && sub.state in ["", "ACTIVE"]
      ensures target in CoveredTargets(subs)
    {
      assert sub.Covers();
    }
  }

  /** A space or a user is targeted by the last part of its identifier, whatever path leads to it; an entry
      that cannot be looked up, or has no identifier, has no target. */
  lemma TargetFromIdentifier(path: string, last: string)
    requires NoSlash(last) && (path == "" || path[|path| - 1] == '/') && path + last != ""
    ensures TargetOf(Spaces, Some(path + last)) == Some("//meet.googleapis.com/spaces/" + last)
    ensures TargetOf(Users, Some(path + last)) == Some("//cloudidentity.googleapis.com/users/" + last)
    ensures forall kind :: TargetOf(kind, None) == None && TargetOf(kind, Some("")) == None
  {
    LastSegment(path, last);
  }

  /** Recording was turned on for the entry, or could not be. */
  ghost predicate AskedAt(s: Setup, entry: string, reply: SettingReply, i: nat) {
    i < |s.wanted| && s.wanted[i] == entry && s.settings && s.TargetAt(i).Some? && s.answers(i).setting == reply
  }

  ghost predicate TurnedOnUpTo(subs: seq<Subscription>, s: Setup, entry: string, n: nat) {
    n <= |s.wanted| && entry in OnEntries(subs, s, n).outcome.autoRecording
  }

  ghost predicate RefusedUpTo(subs: seq<Subscription>, s: Setup, entry: string, n: nat) {
    n <= |s.wanted| && AutoRecordingRefused(entry) in OnEntries(subs, s, n).outcome.failed
  }

  lemma EntryAsks(r: Round, covered: set<string>, entry: string, target: Option<string>, settings: bool, a: Answer,
                  any: string)
    ensures var before, after := r.outcome, OnEntry(r, covered, entry, target, settings, a).outcome;
            && (any in after.autoRecording <==>
                  || any in before.autoRecording
                  || (any == entry && settings && target.Some? && a.setting == TurnedOn))
            && (AutoRecordingRefused(any) in after.failed <==>
                  || AutoRecordingRefused(any) in before.failed
                  || (any == entry && settings && target.Some? && a.setting == SettingRaises))
  {
  }

  lemma AskStep(subs: seq<Subscription>, s: Setup, entry: string, n: nat)
    requires n < |s.wanted|
    ensures TurnedOnUpTo(subs, s, entry, n + 1)
            <==> TurnedOnUpTo(subs, s, entry, n) || AskedAt(s, entry, TurnedOn, n)
    ensures RefusedUpTo(subs, s, entry, n + 1)
            <==> RefusedUpTo(subs, s, entry, n) || AskedAt(s, entry, SettingRaises, n)
  {
    EntryAsks(OnEntries(subs, s, n), CoveredTargets(subs), s.wanted[n], s.TargetAt(n), s.settings, s.answers(n), entry);
  }

  lemma TurnedOnReport(subs: seq<Subscription>, s: Setup, entry: string)
    ensures TurnedOnUpTo(subs, s, entry, |s.wanted|) <==> exists i :: AskedAt(s, entry, TurnedOn, i)
  {
    forall k: nat | k < |s.wanted|
      ensures TurnedOnUpTo(subs, s, entry, k + 1)
              <==> TurnedOnUpTo(subs, s, entry, k) || AskedAt(s, entry, TurnedOn, k)
    {
      AskStep(subs, s, entry, k);
    }
    var adds := (k: nat) => AskedAt(s, entry, TurnedOn, k);
    Accumulates((k: nat) => TurnedOnUpTo(subs, s, entry, k), adds, |s.wanted|);
    assert forall i: nat :: AskedAt(s, entry, TurnedOn, i) ==> adds(i);
  }

  lemma RefusedReport(subs: seq<Subscription>, s: Setup, entry: string)
    ensures RefusedUpTo(subs, s, entry, |s.wanted|) <==> exists i :: AskedAt(s, entry, SettingRaises, i)
  {
    forall k: nat | k < |s.wanted|
      ensures RefusedUpTo(subs, s, entry, k + 1)
              <==> RefusedUpTo(subs, s, entry, k) || AskedAt(s, entry, SettingRaises, k)
    {
      AskStep(subs, s, entry, k);
    }
    var adds := (k: nat) => AskedAt(s, entry, SettingRaises, k);
    Accumulates((k: nat) => RefusedUpTo(subs, s, entry, k), adds, |s.wanted|);
    assert forall i: nat :: AskedAt(s, entry, SettingRaises, i) ==> adds(i);
  }

  /** Recording is asked of every entry that has a target, covered or not, when there is a settings client;
      the report says where it was turned on and where that failed, and how many entries there were. */
  lemma RecordingIsReported(subs: seq<Subscription>, s: Setup, entry: string)
    requires s.listing.ListAnswers?
    ensures var out := RoundOf(subs, s).0.value;
            && (entry in out.autoRecording <==> exists i :: AskedAt(s, entry, TurnedOn, i))
            && (AutoRecordingRefused(entry) in out.failed <==> exists i :: AskedAt(s, entry, SettingRaises, i))
  {
    TurnedOnReport(subs, s, entry);
    RefusedReport(subs, s, entry);
  }

  ghost predicate Plain(out: EnsureOutcome, wanted: nat) {
    out.wanted == wanted && InventoryImpossible !in out.failed && out.extra == {}
  }

  lemma EntryStaysPlain(r: Round, covered: set<string>, entry: string, target: Option<string>, settings: bool,
                        a: Answer, wanted: nat)
    requires Plain(r.outcome, wanted)
    ensures Plain(OnEntry(r, covered, entry, target, settings, a).outcome, wanted)
  {
  }

  lemma {:induction false} WantedStays(subs: seq<Subscription>, s: Setup, n: nat)
    requires n <= |s.wanted|
    ensures Plain(OnEntries(subs, s, n).outcome, |s.wanted|)
  {
    if n > 0 {
      WantedStays(subs, s, n - 1);
      EntryStaysPlain(OnEntries(subs, s, n - 1), CoveredTargets(subs), s.wanted[n - 1], s.TargetAt(n - 1), s.settings,
                      s.answers(n - 1), |s.wanted|);
    }
  }

  /** The lists of the report follow the order of the entries: each entry only adds at the end. */
  lemma ReportsAreAppended(r: Round, covered: set<string>, entry: string, target: Option<string>, settings: bool,
                           a: Answer)
    ensures var before, after := r.outcome, OnEntry(r, covered, entry, target, settings, a).outcome;
            && before.already <= after.already && before.created <= after.created
            && before.failed <= after.failed && before.autoRecording <= after.autoRecording
  {
  }

  /** How a round ends: with nothing done and nothing said but the number of entries when there are none or
      the inventory is refused, the latter being reported, and with an exception when listing raises another
      error; the inventory is reported as impossible in no other case, and users have no extra targets. */
  lemma RoundsEnd(subs: seq<Subscription>, s: Setup)
    ensures s.wanted != [] && s.listing.ListRaises? <==> RoundOf(subs, s).0.None?
    ensures s.wanted == [] || !s.listing.ListAnswers? ==> RoundOf(subs, s).1 == subs
    ensures s.wanted == [] ==> RoundOf(subs, s).0 == Some(EnsureOutcome(0, [], [], [], {}, []))
    ensures s.wanted != [] && s.listing.ListRefused? ==>
              RoundOf(subs, s).0 == Some(EnsureOutcome(|s.wanted|, [], [], [InventoryImpossible], {}, []))
    ensures s.listing.ListAnswers? ==>
              && RoundOf(subs, s).0.value.wanted == |s.wanted|
              && InventoryImpossible !in RoundOf(subs, s).0.value.failed
              && (s.kind.Users? ==> RoundOf(subs, s).0.value.extra == {})
  {
    WantedStays(subs, s, |s.wanted|);
  }

  // ---------------------------------------------------------------------------
  // Runs of rounds
  // ---------------------------------------------------------------------------

  /** Round k starts from `before[k]`. Between rounds anything may happen on the server. */
  ghost predicate RunOf(before: seq<seq<Subscription>>, rounds: seq<Setup>, kind: Kind, directory: Directory) {
    && |before| == |rounds|
    && forall k :: 0 <= k < |rounds| ==> rounds[k].kind == kind && rounds[k].directory == directory
  }

  function After(before: seq<seq<Subscription>>, rounds: seq<Setup>, k: nat): seq<Subscription>
    requires k < |before| == |rounds|
  {
    RoundOf(before[k], rounds[k]).1
  }

  /** The world does not uncover the target between round k and the next. */
  ghost predicate StaysCovered(before: seq<seq<Subscription>>, rounds: seq<Setup>, target: string, k: nat)
    requires k + 1 < |before| == |rounds|
  {
    target in CoveredTargets(After(before, rounds, k)) ==> target in CoveredTargets(before[k + 1])
  }

  ghost predicate NeverUncovered(before: seq<seq<Subscription>>, rounds: seq<Setup>, target: string)
    requires |before| == |rounds|
  {
    forall k :: 0 <= k < |rounds| - 1 ==> StaysCovered(before, rounds, target, k)
  }

  lemma CoverageGrows(subs: seq<Subscription>, more: seq<Subscription>)
    requires subs <= more
    ensures CoveredTargets(subs) <= CoveredTargets(more)
  {
    forall t | t in CoveredTargets(subs) ensures t in CoveredTargets(more) {
      var x :| x in subs && x.Covers() && x.target == t;
      assert x in more;
    }
  }

  lemma {:induction false} CoverageLasts(before: seq<seq<Subscription>>, rounds: seq<Setup>, target: string, j: nat,
                                         k: nat)
    requires |before| == |rounds| && j < k < |rounds| && NeverUncovered(before, rounds, target)
    requires target in CoveredTargets(After(before, rounds, j))
    ensures target in CoveredTargets(before[k])
  {
    assert StaysCovered(before, rounds, target, k - 1);
    if j < k - 1 {
      CoverageLasts(before, rounds, target, j, k - 1);
      NothingIsRemoved(before[k - 1], rounds[k - 1]);
      CoverageGrows(before[k - 1], After(before, rounds, k - 1));
    }
  }

  ghost predicate CreatesFor(before: seq<seq<Subscription>>, rounds: seq<Setup>, target: string, k: nat)
    requires k < |before| == |rounds|
  {
    CountFor(After(before, rounds, k), target) > CountFor(before[k], target)
  }

  lemma IdleRound(subs: seq<Subscription>, s: Setup)
    requires !s.listing.ListAnswers? || s.wanted == []
    ensures RoundOf(subs, s).1 == subs
  {
  }

  /** However many rounds there are, whatever fails in them and whatever is wanted in each, at most one
      of them adds subscriptions for a target that the world does not uncover. */
  lemma OneRoundCreates(before: seq<seq<Subscription>>, rounds: seq<Setup>, target: string, j: nat, k: nat)
    requires |before| == |rounds| && j < k < |rounds| && NeverUncovered(before, rounds, target)
    requires CreatesFor(before, rounds, target, j)
    ensures !CreatesFor(before, rounds, target, k)
  {
    CountIsCoverage(After(before, rounds, j), target);
    CoverageLasts(before, rounds, target, j, k);
    CountIsCoverage(before[k], target);
    if rounds[k].listing.ListAnswers? {
      SubscriptionsAfterRound(before[k], rounds[k], target);
    } else {
      IdleRound(before[k], rounds[k]);
    }
  }

  /** Entry i of a round is reported as covered or created. */
  ghost predicate ServedIn(subs: seq<Subscription>, s: Setup, i: nat)
    requires i < |s.wanted|
  {
    && s.listing.ListAnswers? && s.TargetAt(i).Some?
    && (s.TargetAt(i).value in CoveredTargets(subs) || s.answers(i).reply.Created?)
  }

  /** Entry i of the round is found covered. */
  ghost predicate FoundCovered(subs: seq<Subscription>, s: Setup, i: nat)
    requires i < |s.wanted|
  {
    s.TargetAt(i).Some? && s.TargetAt(i).value in CoveredTargets(subs)
  }

  lemma ServedIsCovered(subs: seq<Subscription>, s: Setup, i: nat)
    requires i < |s.wanted| && ServedIn(subs, s, i)
    ensures s.TargetAt(i).value in CoveredTargets(RoundOf(subs, s).1)
  {
    var target := s.TargetAt(i).value;
    SubscriptionsAfterRound(subs, s, target);
    CountIsCoverage(subs, target);
    CountIsCoverage(RoundOf(subs, s).1, target);
    if target !in CoveredTargets(subs) {
      assert RequestsAt(subs, s, target, i);
      RequestsPositive(subs, s, target, |s.wanted|);
    }
  }

  /** An entry served once is never created again: in every later round it is found covered, unless
      looking it up fails. Several entries may share a target, and the lists may differ. */
  lemma ServedEntriesStaySettled(before: seq<seq<Subscription>>, rounds: seq<Setup>, kind: Kind, directory: Directory,
                                 j: nat, i: nat, k: nat, x: nat)
    requires RunOf(before, rounds, kind, directory) && j < k < |rounds|
    requires i < |rounds[j].wanted| && ServedIn(before[j], rounds[j], i)
    requires NeverUncovered(before, rounds, rounds[j].TargetAt(i).value)
    requires x < |rounds[k].wanted| && rounds[k].wanted[x] == rounds[j].wanted[i]
    ensures rounds[k].TargetAt(x).Some? <==> rounds[k].answers(x).resolves
    ensures rounds[k].answers(x).resolves ==> FoundCovered(before[k], rounds[k], x)
  {
    ServedIsCovered(before[j], rounds[j], i);
    CoverageLasts(before, rounds, rounds[j].TargetAt(i).value, j, k);
  }

  ghost predicate AllFound(r: Round, subs: seq<Subscription>, entries: seq<string>) {
    r.subs == subs && r.outcome.already == entries && r.outcome.created == [] && r.outcome.failed == []
  }

  lemma FoundStep(r: Round, subs: seq<Subscription>, entries: seq<string>, covered: set<string>, entry: string,
                  target: Option<string>, a: Answer)
    requires AllFound(r, subs, entries) && target.Some? && target.value in covered
    ensures AllFound(OnEntry(r, covered, entry, target, false, a), subs, entries + [entry])
  {
  }

  lemma {:induction false} AllFoundSoFar(subs: seq<Subscription>, s: Setup, n: nat)
    requires n <= |s.wanted| && !s.settings
    requires forall i :: 0 <= i < n ==> FoundCovered(subs, s, i)
    ensures AllFound(OnEntries(subs, s, n), subs, s.wanted[..n])
  {
    if n > 0 {
      AllFoundSoFar(subs, s, n - 1);
      assert FoundCovered(subs, s, n - 1);
      FoundStep(OnEntries(subs, s, n - 1), subs, s.wanted[..n - 1], CoveredTargets(subs), s.wanted[n - 1],
                s.TargetAt(n - 1), s.answers(n - 1));
      assert s.wanted[..n] == s.wanted[..n - 1] + [s.wanted[n - 1]];
    }
  }

  /** The entry has been served in some round before round k. */
  ghost predicate ServedBefore(before: seq<seq<Subscription>>, rounds: seq<Setup>, entry: string, k: nat)
    requires |before| == |rounds|
  {
    exists j, i :: ServedAs(before, rounds, entry, k, j, i)
  }

  ghost predicate ServedAs(before: seq<seq<Subscription>>, rounds: seq<Setup>, entry: string, k: nat, j: nat, i: nat)
    requires |before| == |rounds|
  {
    && j < k && j < |rounds| && i < |rounds[j].wanted| && rounds[j].wanted[i] == entry
    && ServedIn(before[j], rounds[j], i)
    && NeverUncovered(before, rounds, rounds[j].TargetAt(i).value)
  }

  /** Convergence: once each wanted entry has been served in some round, not necessarily the same, a
      round in which listing and lookups answer reports them all as covered and changes nothing. */
  lemma RoundsConverge(before: seq<seq<Subscription>>, rounds: seq<Setup>, kind: Kind, directory: Directory, k: nat)
    requires RunOf(before, rounds, kind, directory) && k < |rounds|
    requires rounds[k].listing.ListAnswers? && !rounds[k].settings
    requires forall x :: 0 <= x < |rounds[k].wanted| ==>
               rounds[k].answers(x).resolves && ServedBefore(before, rounds, rounds[k].wanted[x], k)
    ensures RoundOf(before[k], rounds[k]).0.Some?
    ensures var out := RoundOf(before[k], rounds[k]).0.value;
            out.already == rounds[k].wanted && out.created == [] && out.failed == []
    ensures After(before, rounds, k) == before[k]
  {
    var s := rounds[k];
    forall x | 0 <= x < |s.wanted| ensures FoundCovered(before[k], s, x) {
      assert ServedBefore(before, rounds, s.wanted[x], k);
      var j, i :| ServedAs(before, rounds, s.wanted[x], k, j, i);
      ServedEntriesStaySettled(before, rounds, kind, directory, j, i, k, x);
    }
    AllFoundSoFar(before[k], s, |s.wanted|);
    assert s.wanted[..|s.wanted|] == s.wanted;
  }
}
