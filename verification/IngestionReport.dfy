/**
 What the ingestion keeps, posts and reports, entry by entry: parsed entries, acknowledgements, occurrences
 and their keys, artifacts, messages (connector_service/pubsub_pull.py, connector_service/reconciler.py,
 connector_service/meet_poller.py).
 */
module IngestionReport {
  import opened Wrappers
  import opened MeetEvents
  import opened Ingestion
  import opened IngestionRuns

  // ---------------------------------------------------------------------------
  // Entries and acknowledgements
  // ---------------------------------------------------------------------------

  /** An entry gives a message if and only if it is an object with an acknowledgement id and a message; the
      message then carries that id. */
  lemma ParsedOne(e: RawEntry)
    ensures Parsed([e]) ==
            if e.Entry? && e.ackId != "" && e.message.Some?
            then [PulledMessage(e.ackId, e.message.value.content, e.message.value.messageId,
                                e.message.value.deliveryAttempt)]
            else []
  {
    assert [e][..0] == [];
  }

  lemma {:induction false} ParsedInOrder(a: seq<RawEntry>, b: seq<RawEntry>)
    ensures Parsed(a + b) == Parsed(a) + Parsed(b)
  {
    if b == [] {
      assert a + b == a;
    } else {
      ParsedInOrder(a, b[..|b| - 1]);
      assert (a + b)[..|a + b| - 1] == a + b[..|b| - 1];
    }
  }

  /** A message is acknowledged if and only if it was processed or could not be read. */
  lemma AcknowledgedOne(h: Handled)
    ensures Acknowledgeable([h]) == if h.processed || h.event == None then [h.ackId] else []
  {
    assert [h][..0] == [];
  }

  lemma {:induction false} AcknowledgedInOrder(a: seq<Handled>, b: seq<Handled>)
    ensures Acknowledgeable(a + b) == Acknowledgeable(a) + Acknowledgeable(b)
  {
    if b == [] {
      assert a + b == a;
    } else {
      AcknowledgedInOrder(a, b[..|b| - 1]);
      assert (a + b)[..|a + b| - 1] == a + b[..|b| - 1];
    }
  }

  lemma {:induction false} NonEmptyHolds(ids: seq<string>, id: string)
    ensures id in NonEmpty(ids) <==> id in ids && id != ""
  {
    if ids != [] {
      var n := |ids| - 1;
      NonEmptyHolds(ids[..n], id);
      assert ids == ids[..n] + [ids[n]];
    }
  }

  /** The request drops the empty identifiers and is refused if and only if nothing is left. */
  lemma RequestExactly(ids: seq<string>, id: string)
    ensures AcknowledgeRequest(ids).Failure? <==> forall i :: 0 <= i < |ids| ==> ids[i] == ""
    ensures AcknowledgeRequest(ids).Success? ==> (id in AcknowledgeRequest(ids).value <==> id in ids && id != "")
  {
    NonEmptyHolds(ids, id);
    if NonEmpty(ids) == [] {
      forall i | 0 <= i < |ids| ensures ids[i] == "" {
        NonEmptyHolds(ids, ids[i]);
      }
    } else {
      NonEmptyHolds(ids, NonEmpty(ids)[0]);
    }
  }

  // ---------------------------------------------------------------------------
  // Occurrences and keys
  // ---------------------------------------------------------------------------

  /** The occurrence of a conference: the space stands for the account when the event comes from one,
      the conference itself otherwise. */
  lemma OccurrenceFromSource(e: MeetEvent, id: string, space: string)
    requires e.conferenceRecord == RECORDS + id && NoSlash(space)
    ensures e.source == "//meet.googleapis.com/spaces/" + space ==> OccurrenceOf(e) == Occurrence("meet", space, id)
    ensures !("//meet.googleapis.com/spaces/" <= e.source) ==> OccurrenceOf(e) == Occurrence("meet", id, id)
  {
    assert e.conferenceRecord[|RECORDS|..] == id;
    LastSegment("//meet.googleapis.com/spaces/", space);
  }

  function UpToBar(s: string): string {
    if s == "" || s[0] == '|' then "" else [s[0]] + UpToBar(s[1..])
  }

  function AfterBar(s: string): string {
    if s == "" then "" else if s[0] == '|' then s[1..] else AfterBar(s[1..])
  }

  lemma {:induction false} BarSplits(s: string, rest: string)
    requires NoBar(s)
    ensures UpToBar(s + ("|" + rest)) == s && AfterBar(s + ("|" + rest)) == rest
  {
    var whole := s + ("|" + rest);
    if s == "" {
      assert whole == "|" + rest;
      assert whole[1..] == rest;
    } else {
      assert whole[1..] == s[1..] + ("|" + rest);
      BarSplits(s[1..], rest);
    }
  }

  /** The parts of a key: three up to a bar, and the rest. */
  function PartsOf(key: string): (Occurrence, string) {
    var second := AfterBar(key);
    var third := AfterBar(second);
    (Occurrence(UpToBar(key), UpToBar(second), UpToBar(third)), AfterBar(third))
  }

  /** A key reads back as the occurrence, part by part, and the artifact. */
  lemma KeyReadsBack(o: Occurrence, artifactId: string)
    requires NoBar(o.provider) && NoBar(o.providerAccountId) && NoBar(o.externalOccurrenceId)
    ensures PartsOf(DedupKey(o, artifactId)) == (o, artifactId)
  {
    BarSplits(o.provider, o.providerAccountId + ("|" + (o.externalOccurrenceId + ("|" + artifactId))));
    BarSplits(o.providerAccountId, o.externalOccurrenceId + ("|" + artifactId));
    BarSplits(o.externalOccurrenceId, artifactId);
  }

  // ---------------------------------------------------------------------------
  // The artifacts of one occurrence
  // ---------------------------------------------------------------------------

  function KeyAt(o: Occurrence, items: seq<Item>, i: nat): string
    requires i < |items|
  {
    DedupKey(o, items[i].artifactId)
  }

  /** The artifact was imported before, or has the key of an earlier one of the same listing. */
  ghost predicate Known(b: Books, o: Occurrence, items: seq<Item>, i: nat)
    requires i < |items|
  {
    KeyAt(o, items, i) in b.seen || exists j :: 0 <= j < i && KeyAt(o, items, j) == KeyAt(o, items, i)
  }

  /** The artifact is new, and its download raises or its post does. */
  ghost predicate StopsAt(b: Books, o: Occurrence, items: seq<Item>, i: nat)
    requires i < |items|
  {
    !Known(b, o, items, i) && (items[i].attempt.FetchRaises? || !items[i].attempt.returns_)
  }

  ghost predicate NoneStops(b: Books, o: Occurrence, items: seq<Item>, n: nat)
    requires n <= |items|
  {
    forall i :: 0 <= i < n ==> !StopsAt(b, o, items, i)
  }

  ghost predicate OutcomeFits(b: Books, o: Occurrence, items: seq<Item>, out: ReconcileOutcome, i: nat)
    requires i < |items|
  {
    out == if Known(b, o, items, i) then SkippedKnown(KeyAt(o, items, i)) else Imported(KeyAt(o, items, i))
  }

  /** The keys of the outcomes that imported something, in order. */
  function ImportedKeys(outcomes: seq<ReconcileOutcome>): seq<string> {
    if outcomes == [] then [] else
      var n := |outcomes| - 1;
      ImportedKeys(outcomes[..n]) + if outcomes[n].Imported? then [outcomes[n].key] else []
  }

  function After(b: Books, o: Occurrence, items: seq<Item>, n: nat): Reconciling
    requires n <= |items|
  {
    OnArtifacts(b, o, items[..n])
  }

  lemma ArtifactStep(b: Books, o: Occurrence, items: seq<Item>, n: nat)
    requires n < |items|
    ensures After(b, o, items, n + 1) == OnArtifact(After(b, o, items, n), KeyAt(o, items, n), items[n].attempt)
  {
    assert items[..n + 1][..n] == items[..n];
  }

  /** The memory holds what it held and the keys of the first n artifacts. */
  ghost predicate SeenAfter(b: Books, o: Occurrence, items: seq<Item>, n: nat, seen: set<string>)
    requires n <= |items|
  {
    forall key :: key in seen <==> key in b.seen || exists i :: 0 <= i < n && KeyAt(o, items, i) == key
  }

  ghost predicate OutcomesFit(b: Books, o: Occurrence, items: seq<Item>, n: nat, outcomes: seq<ReconcileOutcome>)
    requires n <= |items|
  {
    |outcomes| == n && forall i :: 0 <= i < n ==> OutcomeFits(b, o, items, outcomes[i], i)
  }

  /** Where a reconciliation stands after n artifacts, none of which stopped it. */
  ghost predicate Reconciled(b: Books, o: Occurrence, items: seq<Item>, n: nat, r: Reconciling)
    requires n <= |items|
  {
    && !r.raised
    && SeenAfter(b, o, items, n, r.books.seen)
    && OutcomesFit(b, o, items, n, r.outcomes)
    && r.books.returned == b.returned + ImportedKeys(r.outcomes)
  }

  lemma OneMoreOutcome(outcomes: seq<ReconcileOutcome>, out: ReconcileOutcome)
    ensures ImportedKeys(outcomes + [out]) == ImportedKeys(outcomes) + if out.Imported? then [out.key] else []
  {
    assert (outcomes + [out])[..|outcomes|] == outcomes;
  }

  lemma KnownIsSeen(b: Books, o: Occurrence, items: seq<Item>, n: nat, r: Reconciling)
    requires n < |items| && SeenAfter(b, o, items, n, r.books.seen)
    ensures Known(b, o, items, n) <==> KeyAt(o, items, n) in r.books.seen
  {
  }

  lemma OneMoreSeen(b: Books, o: Occurrence, items: seq<Item>, n: nat, seen: set<string>)
    requires n < |items| && SeenAfter(b, o, items, n, seen)
    ensures SeenAfter(b, o, items, n + 1, seen + {KeyAt(o, items, n)})
  {
  }

  lemma OneMoreFits(b: Books, o: Occurrence, items: seq<Item>, n: nat, outcomes: seq<ReconcileOutcome>,
                    out: ReconcileOutcome)
    requires n < |items| && OutcomesFit(b, o, items, n, outcomes) && OutcomeFits(b, o, items, out, n)
    ensures OutcomesFit(b, o, items, n + 1, outcomes + [out])
  {
    forall i | 0 <= i < n ensures OutcomeFits(b, o, items, (outcomes + [out])[i], i) {
      assert OutcomeFits(b, o, items, outcomes[i], i);
    }
  }

  /** One artifact that does not stop: skipped when it is in the memory, imported and posted otherwise. */
  lemma ArtifactGoesOn(r: Reconciling, key: string, a: Attempt)
    requires !r.raised && (key in r.books.seen || (a.Post? && a.returns_))
    ensures var r' := OnArtifact(r, key, a);
            && !r'.raised && r'.books.seen == r.books.seen + {key}
            && r'.outcomes == r.outcomes + [if key in r.books.seen then SkippedKnown(key) else Imported(key)]
            && r'.books.returned == r.books.returned + if key in r.books.seen then [] else [key]
  {
  }

  lemma ArtifactReconciled(b: Books, o: Occurrence, items: seq<Item>, n: nat, r: Reconciling)
    requires n < |items| && Reconciled(b, o, items, n, r) && !StopsAt(b, o, items, n)
    ensures Reconciled(b, o, items, n + 1, OnArtifact(r, KeyAt(o, items, n), items[n].attempt))
  {
    var key := KeyAt(o, items, n);
    KnownIsSeen(b, o, items, n, r);
    ArtifactGoesOn(r, key, items[n].attempt);
    OneMoreSeen(b, o, items, n, r.books.seen);
    var out := if key in r.books.seen then SkippedKnown(key) else Imported(key);
    OneMoreFits(b, o, items, n, r.outcomes, out);
    OneMoreOutcome(r.outcomes, out);
  }

  lemma {:induction false} PrefixReconciled(b: Books, o: Occurrence, items: seq<Item>, n: nat)
    requires n <= |items| && NoneStops(b, o, items, n)
    ensures Reconciled(b, o, items, n, After(b, o, items, n))
  {
    if n > 0 {
      PrefixReconciled(b, o, items, n - 1);
      ArtifactStep(b, o, items, n - 1);
      ArtifactReconciled(b, o, items, n - 1, After(b, o, items, n - 1));
    }
  }

  lemma StopRaises(b: Books, o: Occurrence, items: seq<Item>, n: nat)
    requires n < |items| && NoneStops(b, o, items, n) && StopsAt(b, o, items, n)
    ensures OnArtifacts(b, o, items).raised && OnArtifacts(b, o, items) == After(b, o, items, n + 1)
    ensures OnArtifacts(b, o, items).outcomes == After(b, o, items, n).outcomes
    ensures OnArtifacts(b, o, items).books.seen == After(b, o, items, n).books.seen
  {
    PrefixReconciled(b, o, items, n);
    KnownIsSeen(b, o, items, n, After(b, o, items, n));
    ArtifactStep(b, o, items, n);
    RaisedStays(b, o, items, n + 1);
  }

  lemma {:induction false} FirstStop(b: Books, o: Occurrence, items: seq<Item>, n: nat) returns (k: nat)
    requires n <= |items| && !NoneStops(b, o, items, n)
    ensures k < n && NoneStops(b, o, items, k) && StopsAt(b, o, items, k)
  {
    if NoneStops(b, o, items, n - 1) {
      k := n - 1;
    } else {
      k := FirstStop(b, o, items, n - 1);
    }
  }

  /** A reconciliation raises if and only if the listing does, or a new artifact cannot be downloaded or
      posted. Otherwise there is one outcome for each artifact, in order: skipped if it was known, imported
      if not; and the imported ones, and no others, are the posts that returned. */
  lemma ReconcileExactly(b: Books, o: Occurrence, listing: Listing)
    ensures var r := ReconcileOf(b, o, listing);
            && (r.raised <==> listing.ListRaises? || !NoneStops(b, o, listing.items, |listing.items|))
            && (!r.raised ==> Reconciled(b, o, listing.items, |listing.items|, r))
  {
    if listing.Listed? {
      var items := listing.items;
      assert items[..|items|] == items;
      if NoneStops(b, o, items, |items|) {
        PrefixReconciled(b, o, items, |items|);
      } else {
        var k := FirstStop(b, o, items, |items|);
        StopRaises(b, o, items, k);
      }
    }
  }

  /** An artifact that is new is posted, if it can be downloaded, and creates a job if that is accepted,
      even when the post raises; one that is known, or cannot be downloaded, is not. */
  lemma JobsGrowByPosts(b: Books, o: Occurrence, items: seq<Item>, n: nat, key: string)
    requires n < |items| && NoneStops(b, o, items, n)
    ensures key in After(b, o, items, n + 1).books.jobs <==>
              || key in After(b, o, items, n).books.jobs
              || (key == KeyAt(o, items, n) && !Known(b, o, items, n) && items[n].attempt.Post?
                  && items[n].attempt.accepted)
  {
    PrefixReconciled(b, o, items, n);
    KnownIsSeen(b, o, items, n, After(b, o, items, n));
    ArtifactStep(b, o, items, n);
  }

  // ---------------------------------------------------------------------------
  // The report of a round
  // ---------------------------------------------------------------------------

  /** How many of the messages have the property. */
  function Count(messages: seq<ReadMessage>, p: ReadMessage -> bool): nat {
    if messages == [] then 0 else
      var n := |messages| - 1;
      Count(messages[..n], p) + if p(messages[n]) then 1 else 0
  }

  predicate IsUnreadable(m: ReadMessage) { m.reading == Unreadable }

  /** Messages handed out five times or more are reported by their identifier, or failing that by twelve
      characters of the acknowledgement id. */
  predicate IsStuckAs(m: ReadMessage, name: string) {
    && m.deliveryAttempt >= 5
    && name == (if m.messageId != "" then m.messageId else if |m.ackId| <= 12 then m.ackId else m.ackId[..12])
  }

  ghost predicate StuckIn(messages: seq<ReadMessage>, name: string) {
    exists m :: m in messages && IsStuckAs(m, name)
  }

  ghost predicate ReportFits(messages: seq<ReadMessage>, total: nat, out: PollOutcome, name: string) {
    && out.pulled == total
    && out.triggering == Count(messages, Triggers)
    && out.unreadable == Count(messages, IsUnreadable)
    && (name in out.stuck <==> StuckIn(messages, name))
  }

  lemma OneMoreCounted(messages: seq<ReadMessage>, m: ReadMessage, p: ReadMessage -> bool)
    ensures Count(messages + [m], p) == Count(messages, p) + if p(m) then 1 else 0
  {
    assert (messages + [m])[..|messages|] == messages;
  }

  lemma OneMoreStuck(messages: seq<ReadMessage>, m: ReadMessage, name: string)
    ensures StuckIn(messages + [m], name) <==> StuckIn(messages, name) || IsStuckAs(m, name)
  {
    assert forall x :: x in messages + [m] <==> x in messages || x == m;
  }

  lemma OneMoreReported(r: Round, messages: seq<ReadMessage>, m: ReadMessage, listing: Listing, total: nat,
                        name: string)
    requires !r.raised && !m.reading.Breaking? && ReportFits(messages, total, r.outcome, name)
    ensures ReportFits(messages + [m], total, OnMessage(r, m, listing).outcome, name)
  {
    OneMoreCounted(messages, m, Triggers);
    OneMoreCounted(messages, m, IsUnreadable);
    OneMoreStuck(messages, m, name);
  }

  /** What a round that is not cut short reports of its messages: how many there were, how many announced a
      recording, how many could not be read, and which ones come back again and again. */
  lemma {:induction false} RoundReportsMessages(b: Books, total: nat, messages: seq<ReadMessage>,
                                                listings: nat -> Listing, name: string)
    requires NoneBreaks(messages, |messages|)
    ensures ReportFits(messages, total, OnMessages(b, total, messages, listings).outcome, name)
  {
    if messages != [] {
      var n := |messages| - 1;
      RoundReportsMessages(b, total, messages[..n], listings, name);
      RoundStopsAtBreaking(b, total, messages[..n], listings);
      OneMoreReported(OnMessages(b, total, messages[..n], listings), messages[..n], messages[n], listings(n), total,
                      name);
      assert messages == messages[..n] + [messages[n]];
    }
  }

  /** And of its reconciliations: the outcomes of those that returned, in order. */
  lemma RoundReportsOutcomes(b: Books, messages: seq<ReadMessage>, listings: nat -> Listing, n: nat)
    requires n < |messages| && NoneBreaks(messages, n + 1)
    ensures var before, after := OnMessages(b, |messages|, messages[..n], listings).outcome.ingested,
                                 OnMessages(b, |messages|, messages[..n + 1], listings).outcome.ingested;
            after == if Triggers(messages[n]) && !FailsAt(b, messages, listings, n)
                     then before + ReconcileOf(BooksAt(b, messages, listings, n),
                                               OccurrenceOf(messages[n].reading.event), listings(n)).outcomes
                     else before
  {
    PrefixGoesOn(b, messages, listings, n);
    RoundGoesOn(b, |messages|, messages, n, listings);
  }

  /** The message is reported as stuck under that name. */
  ghost predicate StuckAt(pulled: seq<PulledMessage>, name: string, i: nat)
    requires i < |pulled|
  {
    var m := pulled[i];
    && m.deliveryAttempt >= 5
    && name == (if m.messageId != "" then m.messageId else if |m.ackId| <= 12 then m.ackId else m.ackId[..12])
  }

  ghost predicate UnreadableAt(pulled: seq<PulledMessage>, i: nat)
    requires i < |pulled|
  {
    pulled[i].content.Reading() == Unreadable
  }

  /** The same, for messages as they are pulled. */
  lemma RoundReportsPulled(b: Books, pulled: seq<PulledMessage>, listings: nat -> Listing, name: string)
    requires forall i :: 0 <= i < |pulled| ==> !BreaksAt(pulled, i)
    ensures var out := OnMessages(b, |pulled|, AllRead(pulled), listings).outcome;
            && out.pulled == |pulled|
            && (name in out.stuck <==> exists i :: 0 <= i < |pulled| && StuckAt(pulled, name, i))
            && (out.unreadable > 0 <==> exists i :: 0 <= i < |pulled| && UnreadableAt(pulled, i))
  {
    var messages := AllRead(pulled);
    forall i | 0 <= i < |pulled| ensures !messages[i].reading.Breaking? {
      assert !BreaksAt(pulled, i);
      BreakingExactly(pulled[i].content);
    }
    RoundReportsMessages(b, |pulled|, messages, listings, name);
    StuckIsStuckAt(pulled, name);
    SomeCounted(messages, IsUnreadable);
    forall i | 0 <= i < |pulled| ensures IsUnreadable(messages[i]) <==> UnreadableAt(pulled, i) {
    }
  }

  lemma StuckIsStuckAt(pulled: seq<PulledMessage>, name: string)
    ensures StuckIn(AllRead(pulled), name) <==> exists i :: 0 <= i < |pulled| && StuckAt(pulled, name, i)
  {
    var messages := AllRead(pulled);
    forall i | 0 <= i < |pulled| ensures IsStuckAs(messages[i], name) <==> StuckAt(pulled, name, i) {
    }
    if i :| 0 <= i < |pulled| && StuckAt(pulled, name, i) {
      assert messages[i] in messages;
    }
  }

  lemma {:induction false} SomeCounted(messages: seq<ReadMessage>, p: ReadMessage -> bool)
    ensures Count(messages, p) > 0 <==> exists i :: 0 <= i < |messages| && p(messages[i])
  {
    if messages != [] {
      var n := |messages| - 1;
      SomeCounted(messages[..n], p);
      assert forall i :: 0 <= i < n ==> messages[..n][i] == messages[i];
    }
  }

  /** Reports are written in the order of the messages: each only adds at the end. */
  lemma ReportsAreAppended(r: Round, m: ReadMessage, listing: Listing)
    ensures var r' := OnMessage(r, m, listing);
            && r.outcome.stuck <= r'.outcome.stuck
            && r.outcome.ingested <= r'.outcome.ingested
            && r.handled <= r'.handled
  {
  }
}
