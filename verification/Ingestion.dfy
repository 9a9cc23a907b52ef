/**
 From the Pub/Sub queue to transcription jobs (connector_service/pubsub_pull.py,
 connector_service/reconciler.py, connector_service/meet_poller.py).

 The platform, the download and the jobs API are the environment: a listing or a download may raise,
 a post may return or raise, and in both cases the server may or may not have taken the recording.
 */
module Ingestion {
  import opened Wrappers
  import opened MeetEvents

  // ---------------------------------------------------------------------------
  // Messages
  // ---------------------------------------------------------------------------

  datatype PulledMessage = PulledMessage(ackId: string, content: Content, messageId: string, deliveryAttempt: int)

  /** An entry of `receivedMessages`; a missing acknowledgement id is "", a missing message None. */
  datatype RawEntry = NotAnObject | Entry(ackId: string, message: Option<PulledMessage>)

  datatype Payload = NotJson | NotADict | Refused | NoMessages | NotAList | Messages(entries: seq<RawEntry>)

  predicate Usable(e: RawEntry) { e.Entry? && e.ackId != "" && e.message.Some? }

  function Parsed(entries: seq<RawEntry>): seq<PulledMessage> {
    if entries == [] then [] else
      var n := |entries| - 1;
      if Usable(entries[n]) then Parsed(entries[..n]) + [entries[n].message.value.(ackId := entries[n].ackId)]
      else Parsed(entries[..n])
  }

  method ParsePullResponse(payload: Payload) returns (r: Result<seq<PulledMessage>, string>)
    ensures r.Failure? <==> payload.NotJson? || payload.NotADict? || payload.Refused? || payload.NotAList?
    ensures payload.NoMessages? ==> r == Success([])
    ensures payload.Messages? ==> r == Success(Parsed(payload.entries))
  {
    match payload {
      case NotJson => return Failure("unreadable");
      case NotADict => return Failure("unusable");
      case Refused => return Failure("refused");
      case NotAList => return Failure("receivedMessages should be a list");
      case NoMessages => return Success([]);
      case Messages(entries) =>
        var messages := [];
        for i := 0 to |entries|
          invariant messages == Parsed(entries[..i])
        {
          assert entries[..i + 1][..i] == entries[..i];
          var e := entries[i];
          if !e.Entry? || e.ackId == "" || e.message.None? {
            continue;
          }
          messages := messages + [e.message.value.(ackId := e.ackId)];
        }
        assert entries[..|entries|] == entries;
        return Success(messages);
    }
  }

  datatype Handled = Handled(ackId: string, event: Option<MeetEvent>, processed: bool)

  predicate ToAcknowledge(h: Handled) { h.processed || h.event.None? }

  function Acknowledgeable(results: seq<Handled>): seq<string> {
    if results == [] then [] else
      var n := |results| - 1;
      if ToAcknowledge(results[n]) then Acknowledgeable(results[..n]) + [results[n].ackId]
      else Acknowledgeable(results[..n])
  }

  /** The request is refused when no identifier is left once the empty ones are dropped. */
  function AcknowledgeRequest(ackIds: seq<string>): Result<seq<string>, string> {
    var ids := NonEmpty(ackIds);
    if ids == [] then Failure("nothing to acknowledge") else Success(ids)
  }

  function NonEmpty(ackIds: seq<string>): seq<string> {
    if ackIds == [] then [] else
      var n := |ackIds| - 1;
      if ackIds[n] != "" then NonEmpty(ackIds[..n]) + [ackIds[n]] else NonEmpty(ackIds[..n])
  }

  // ---------------------------------------------------------------------------
  // Occurrences and deduplication keys
  // ---------------------------------------------------------------------------

  datatype Occurrence = Occurrence(provider: string, providerAccountId: string, externalOccurrenceId: string)

  function RemovePrefix(s: string, prefix: string): string {
    if prefix <= s then s[|prefix|..] else s
  }

  function OccurrenceOf(e: MeetEvent): Occurrence {
    var id := RemovePrefix(e.conferenceRecord, RECORDS);
    Occurrence("meet", if "//meet.googleapis.com/spaces/" <= e.source then AfterLastSlash(e.source) else id, id)
  }

  /** Every artifact of a conference leads to the same bare identifier, without the prefix that the provider
      puts back. */
  lemma OccurrenceIsTheConference(e: MeetEvent, id: string, rest: string)
    requires NoSlash(id) && (rest == "" || rest[0] == '/')
    requires e.resourceName == RECORDS + (id + rest) && e.conferenceRecord == ConferenceRecordOf(e.resourceName)
    ensures OccurrenceOf(e).externalOccurrenceId == id
  {
    RecordOfArtifact(id, rest);
  }

  function DedupKey(o: Occurrence, artifactId: string): string {
    o.provider + ("|" + (o.providerAccountId + ("|" + (o.externalOccurrenceId + ("|" + artifactId)))))
  }

  ghost predicate NoBar(s: string) { forall i :: 0 <= i < |s| ==> s[i] != '|' }

  lemma {:induction false} FirstBarSplits(a: string, x: string, b: string, y: string)
    requires NoBar(a) && NoBar(b) && a + ("|" + x) == b + ("|" + y)
    ensures a == b && x == y
  {
    var s, t := a + ("|" + x), b + ("|" + y);
    assert s[|a|] == '|' && t[|b|] == '|';
    assert forall i :: 0 <= i < |a| ==> s[i] == a[i] != '|';
    assert forall i :: 0 <= i < |b| ==> t[i] == b[i] != '|';
    assert |a| == |b|;
    assert a == s[..|a|] && b == t[..|b|];
    assert x == s[|a| + 1..] && y == t[|b| + 1..];
  }

  /** The key tells occurrences and artifacts apart as long as no bar hides in the first three parts. */
  lemma DedupKeyIsInjective(o: Occurrence, a: string, p: Occurrence, b: string)
    requires NoBar(o.provider) && NoBar(o.providerAccountId) && NoBar(o.externalOccurrenceId)
    requires NoBar(p.provider) && NoBar(p.providerAccountId) && NoBar(p.externalOccurrenceId)
    requires DedupKey(o, a) == DedupKey(p, b)
    ensures o == p && a == b
  {
    FirstBarSplits(o.provider, o.providerAccountId + ("|" + (o.externalOccurrenceId + ("|" + a))),
                   p.provider, p.providerAccountId + ("|" + (p.externalOccurrenceId + ("|" + b))));
    FirstBarSplits(o.providerAccountId, o.externalOccurrenceId + ("|" + a),
                   p.providerAccountId, p.externalOccurrenceId + ("|" + b));
    FirstBarSplits(o.externalOccurrenceId, a, p.externalOccurrenceId, b);
  }

  // ---------------------------------------------------------------------------
  // Reconciling one occurrence
  // ---------------------------------------------------------------------------

  /** What happens when an artifact is not skipped: the download raises, or the post is made, which
      returns or raises, and is accepted by the server or not. */
  datatype Attempt = FetchRaises | Post(returns_: bool, accepted: bool)

  datatype Item = Item(artifactId: string, attempt: Attempt)

  datatype Listing = ListRaises | Listed(items: seq<Item>)

  datatype ReconcileOutcome = SkippedKnown(key: string) | Imported(key: string)

  /** The poller's local memory, the posts that returned in its lifetime, and the server's jobs. */
  datatype Books = Books(seen: set<string>, returned: seq<string>, jobs: seq<string>)

  /** The server creates a job unless it has one for that key. */
  function Accept(jobs: seq<string>, key: string): seq<string> {
    if key in jobs then jobs else jobs + [key]
  }

  datatype Reconciling = Reconciling(books: Books, outcomes: seq<ReconcileOutcome>, raised: bool)

  function OnArtifact(r: Reconciling, key: string, a: Attempt): Reconciling {
    if r.raised then r
    else if key in r.books.seen then r.(outcomes := r.outcomes + [SkippedKnown(key)])
    else match a
         case FetchRaises => r.(raised := true)
         case Post(returns_, accepted) =>
           var jobs := if accepted then Accept(r.books.jobs, key) else r.books.jobs;
           if returns_
           then Reconciling(Books(r.books.seen + {key}, r.books.returned + [key], jobs),
                            r.outcomes + [Imported(key)], false)
           else Reconciling(r.books.(jobs := jobs), r.outcomes, true)
  }

  function OnArtifacts(b: Books, o: Occurrence, items: seq<Item>): Reconciling {
    if items == [] then Reconciling(b, [], false) else
      var n := |items| - 1;
      OnArtifact(OnArtifacts(b, o, items[..n]), DedupKey(o, items[n].artifactId), items[n].attempt)
  }

  function ReconcileOf(b: Books, o: Occurrence, listing: Listing): Reconciling {
    match listing
    case ListRaises => Reconciling(b, [], true)
    case Listed(items) => OnArtifacts(b, o, items)
  }

  /** The set of known keys, passed around by reference. */
  class KeySet {
    var keys: set<string>

    constructor ()
      ensures keys == {}
    {
      keys := {};
    }
  }

  /** The client of the jobs API, with the server behind it. */
  class Bridge {
    var returned: seq<string>
    var jobs: seq<string>

    constructor ()
      ensures returned == [] && jobs == []
    {
      returned, jobs := [], [];
    }

    method IngestRecording(key: string, a: Attempt) returns (raised: bool)
      requires a.Post?
      modifies this
      ensures raised == !a.returns_
      ensures jobs == if a.accepted then Accept(old(jobs), key) else old(jobs)
      ensures returned == if raised then old(returned) else old(returned) + [key]
    {
      if a.accepted && key !in jobs {
        jobs := jobs + [key];
      }
      raised := !a.returns_;
      if !raised {
        returned := returned + [key];
      }
    }
  }

  function Open(seen: KeySet, bridge: Bridge): Books
    reads seen, bridge
  {
    Books(seen.keys, bridge.returned, bridge.jobs)
  }

  class ProviderReconciler {
    const bridge: Bridge

    constructor (bridge: Bridge)
      ensures this.bridge == bridge
    {
      this.bridge := bridge;
    }

    /** The result is None when an exception leaves the loop; what was done before stays done. */
    method Reconcile(o: Occurrence, listing: Listing, seen: KeySet) returns (r: Option<seq<ReconcileOutcome>>)
      modifies seen, bridge
      ensures var spec := ReconcileOf(old(Open(seen, bridge)), o, listing);
              && Open(seen, bridge) == spec.books
              && r == if spec.raised then None else Some(spec.outcomes)
    {
      if listing.ListRaises? {
        return None;
      }
      var items := listing.items;
      ghost var start := Open(seen, bridge);
      var outcomes := [];
      for i := 0 to |items|
        invariant OnArtifacts(start, o, items[..i]) == Reconciling(Open(seen, bridge), outcomes, false)
      {
        assert items[..i + 1][..i] == items[..i];
        var key := DedupKey(o, items[i].artifactId);
        if key in seen.keys {
          outcomes := outcomes + [SkippedKnown(key)];
          continue;
        }
        if items[i].attempt.FetchRaises? {
          RaisedStays(start, o, items, i + 1);
          return None;
        }
        var raised := bridge.IngestRecording(key, items[i].attempt);
        if raised {
          RaisedStays(start, o, items, i + 1);
          return None;
        }
        seen.keys := seen.keys + {key};
        outcomes := outcomes + [Imported(key)];
      }
      assert items[..|items|] == items;
      r := Some(outcomes);
    }
  }

  lemma {:induction false} RaisedStays(b: Books, o: Occurrence, items: seq<Item>, n: nat)
    requires n <= |items| && OnArtifacts(b, o, items[..n]).raised
    ensures OnArtifacts(b, o, items) == OnArtifacts(b, o, items[..n])
  {
    if n < |items| {
      var m := |items| - 1;
      assert items[..m][..n] == items[..n];
      RaisedStays(b, o, items[..m], n);
    } else {
      assert items[..n] == items;
    }
  }

  // ---------------------------------------------------------------------------
  // One round of polling
  // ---------------------------------------------------------------------------

  datatype PollOutcome = PollOutcome(
    pulled: nat,
    triggering: nat,
    ingested: seq<ReconcileOutcome>,
    acknowledged: seq<string>,
    unreadable: nat,
    failed: nat,
    stuck: seq<string>)

  /** A message beside what reading it gives. */
  datatype ReadMessage = ReadMessage(ackId: string, reading: Reading, messageId: string, deliveryAttempt: int) {
    predicate LooksStuck() { deliveryAttempt >= 5 }
  }

  function AsRead(m: PulledMessage): ReadMessage {
    ReadMessage(m.ackId, m.content.Reading(), m.messageId, m.deliveryAttempt)
  }

  function AllRead(messages: seq<PulledMessage>): (r: seq<ReadMessage>)
    ensures |r| == |messages| && forall i :: 0 <= i < |r| ==> r[i] == AsRead(messages[i])
  {
    seq(|messages|, i requires 0 <= i < |messages| => AsRead(messages[i]))
  }

  /** `raised` when an exception has left the loop over the messages. */
  datatype Round = Round(books: Books, outcome: PollOutcome, handled: seq<Handled>, raised: bool)

  function Prefix12(s: string): string { if |s| <= 12 then s else s[..12] }

  function StuckName(messageId: string, ackId: string): string {
    if messageId != "" then messageId else Prefix12(ackId)
  }

  function OnMessage(r: Round, m: ReadMessage, listing: Listing): Round {
    if r.raised then r else
      var out := if m.LooksStuck()
                 then r.outcome.(stuck := r.outcome.stuck + [StuckName(m.messageId, m.ackId)])
                 else r.outcome;
      match m.reading
      case Breaking => Round(r.books, out, r.handled, true)
      case Unreadable =>
        Round(r.books, out.(unreadable := out.unreadable + 1), r.handled + [Handled(m.ackId, None, false)], false)
      case Readable(event) =>
        if !event.IsRecordingReady() then
          Round(r.books, out, r.handled + [Handled(m.ackId, Some(event), true)], false)
        else
          var triggered := out.(triggering := out.triggering + 1);
          var issues := ReconcileOf(r.books, OccurrenceOf(event), listing);
          if issues.raised then
            Round(issues.books, triggered.(failed := triggered.failed + 1),
                  r.handled + [Handled(m.ackId, Some(event), false)], false)
          else
            Round(issues.books, triggered.(ingested := triggered.ingested + issues.outcomes),
                  r.handled + [Handled(m.ackId, Some(event), true)], false)
  }

  function OnMessages(b: Books, total: nat, messages: seq<ReadMessage>, listings: nat -> Listing): Round {
    if messages == [] then Round(b, PollOutcome(total, 0, [], [], 0, 0, []), [], false) else
      var n := |messages| - 1;
      OnMessage(OnMessages(b, total, messages[..n], listings), messages[n], listings(n))
  }

  /** What the round asks to acknowledge. */
  function ToSend(r: Round): seq<string> {
    if r.raised then [] else Acknowledgeable(r.handled)
  }

  class MeetPoller {
    const reconciler: ProviderReconciler
    const seen: KeySet

    constructor (reconciler: ProviderReconciler)
      ensures this.reconciler == reconciler && fresh(seen) && seen.keys == {}
    {
      this.reconciler := reconciler;
      this.seen := new KeySet();
    }

    /** The body of the loop over the messages. */
    method Handle(m: PulledMessage, listing: Listing, before: PollOutcome, handled: seq<Handled>)
      returns (outcome: PollOutcome, handled': seq<Handled>, raised: bool)
      modifies seen, reconciler.bridge
      ensures Round(Open(seen, reconciler.bridge), outcome, handled', raised)
              == OnMessage(Round(old(Open(seen, reconciler.bridge)), before, handled, false), AsRead(m), listing)
    {
      var reading := ParseMessage(m.content);
      outcome, handled', raised := HandleRead(ReadMessage(m.ackId, reading, m.messageId, m.deliveryAttempt),
                                              listing, before, handled);
    }

    method HandleRead(m: ReadMessage, listing: Listing, before: PollOutcome, handled: seq<Handled>)
      returns (outcome: PollOutcome, handled': seq<Handled>, raised: bool)
      modifies seen, reconciler.bridge
      ensures Round(Open(seen, reconciler.bridge), outcome, handled', raised)
              == OnMessage(Round(old(Open(seen, reconciler.bridge)), before, handled, false), m, listing)
    {
      outcome := before;
      if m.LooksStuck() {
        outcome := outcome.(stuck := outcome.stuck + [StuckName(m.messageId, m.ackId)]);
      }
      match m.reading {
        case Breaking =>
          return outcome, handled, true;
        case Unreadable =>
          outcome := outcome.(unreadable := outcome.unreadable + 1);
          return outcome, handled + [Handled(m.ackId, None, false)], false;
        case Readable(event) =>
          if !event.IsRecordingReady() {
            return outcome, handled + [Handled(m.ackId, Some(event), true)], false;
          }
          outcome := outcome.(triggering := outcome.triggering + 1);
          var issues := reconciler.Reconcile(OccurrenceOf(event), listing, seen);
          if issues.None? {
            outcome := outcome.(failed := outcome.failed + 1);
            return outcome, handled + [Handled(m.ackId, Some(event), false)], false;
          }
          outcome := outcome.(ingested := outcome.ingested + issues.value);
          return outcome, handled + [Handled(m.ackId, Some(event), true)], false;
      }
    }

    /** `messages` is None when the pull raises; the result is None when the pull, the reading of a
        message or the acknowledgement raises. `sent` is what was given to the acknowledgement, if it
        was called. */
    method PollOnce(messages: Option<seq<PulledMessage>>, listings: nat -> Listing, ackRaises: bool)
      returns (result: Option<PollOutcome>, sent: seq<string>)
      modifies seen, reconciler.bridge
      ensures messages.None? ==>
                && result.None? && sent == []
                && Open(seen, reconciler.bridge) == old(Open(seen, reconciler.bridge))
      ensures messages.Some? ==>
                var all := messages.value;
                var round := OnMessages(old(Open(seen, reconciler.bridge)), |all|, AllRead(all), listings);
                && Open(seen, reconciler.bridge) == round.books
                && sent == ToSend(round)
                && result == if round.raised || (sent != [] && ackRaises) then None
                             else Some(round.outcome.(acknowledged := sent))
    {
      sent := [];
      if messages.None? {
        return None, [];
      }
      var all := messages.value;
      var outcome := PollOutcome(|all|, 0, [], [], 0, 0, []);
      var handled := [];
      ghost var start, read := Open(seen, reconciler.bridge), AllRead(all);
      for i := 0 to |all|
        invariant OnMessages(start, |all|, read[..i], listings)
                  == Round(Open(seen, reconciler.bridge), outcome, handled, false)
      {
        RoundGoesOn(start, |all|, read, i, listings);
        var raised;
        outcome, handled, raised := Handle(all[i], listings(i), outcome, handled);
        if raised {
          StoppedStays(start, |all|, read, i + 1, listings);
          return None, [];
        }
      }
      assert read[..|all|] == read;
      AcknowledgedStaysEmpty(start, |all|, read, listings);
      sent := Acknowledgeable(handled);
      if sent != [] {
        if ackRaises {
          return None, sent;
        }
        outcome := outcome.(acknowledged := sent);
      }
      result := Some(outcome);
    }
  }

  lemma RoundGoesOn(b: Books, total: nat, messages: seq<ReadMessage>, n: nat, listings: nat -> Listing)
    requires n < |messages|
    ensures OnMessages(b, total, messages[..n + 1], listings)
            == OnMessage(OnMessages(b, total, messages[..n], listings), messages[n], listings(n))
  {
    assert messages[..n + 1][..n] == messages[..n];
  }

  lemma {:induction false} StoppedStays(b: Books, total: nat, messages: seq<ReadMessage>, n: nat,
                                        listings: nat -> Listing)
    requires n <= |messages| && OnMessages(b, total, messages[..n], listings).raised
    ensures OnMessages(b, total, messages, listings) == OnMessages(b, total, messages[..n], listings)
  {
    if n < |messages| {
      var m := |messages| - 1;
      assert messages[..m][..n] == messages[..n];
      StoppedStays(b, total, messages[..m], n, listings);
    } else {
      assert messages[..n] == messages;
    }
  }

  lemma {:induction false} AcknowledgedStaysEmpty(b: Books, total: nat, messages: seq<ReadMessage>,
                                                  listings: nat -> Listing)
    ensures OnMessages(b, total, messages, listings).outcome.acknowledged == []
  {
    if messages != [] {
      AcknowledgedStaysEmpty(b, total, messages[..|messages| - 1], listings);
    }
  }
}
