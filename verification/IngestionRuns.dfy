/**
 Whole runs of the ingestion: a queue that redelivers, rounds that fail in part, pollers that restart
 with an empty memory, acknowledgements that may not be heard.
 */
module IngestionRuns {
  import opened Wrappers
  import opened MeetEvents
  import opened Ingestion

  // ---------------------------------------------------------------------------
  // One reconciliation
  // ---------------------------------------------------------------------------

  ghost predicate NoRepeats(s: seq<string>) {
    forall i, j :: 0 <= i < j < |s| ==> s[i] != s[j]
  }

  /** The memory holds exactly the posts that returned, each once; the server has one job a key. */
  ghost predicate Kept(b: Books) {
    && NoRepeats(b.returned)
    && NoRepeats(b.jobs)
    && forall key :: key in b.seen <==> key in b.returned
  }

  ghost predicate Grows(b: Books, b': Books) {
    b.seen <= b'.seen && b.returned <= b'.returned && b.jobs <= b'.jobs
  }

  /** A post that returned was accepted. */
  predicate Trusted(a: Attempt) { a.Post? && a.returns_ ==> a.accepted }

  predicate TrustedListing(l: Listing) {
    l.Listed? ==> forall i :: 0 <= i < |l.items| ==> Trusted(l.items[i].attempt)
  }

  ghost predicate AllJobs(b: Books) {
    forall key :: key in b.returned ==> key in b.jobs
  }

  lemma ArtifactKeeps(r: Reconciling, key: string, a: Attempt)
    requires Kept(r.books)
    ensures var r' := OnArtifact(r, key, a);
            && Kept(r'.books) && Grows(r.books, r'.books)
            && (!r'.raised ==> key in r'.books.seen)
            && (r.raised ==> r'.raised)
            && (AllJobs(r.books) && Trusted(a) ==> AllJobs(r'.books))
  {
  }

  lemma ListedOneMore(o: Occurrence, items: seq<Item>, keys: set<string>, more: set<string>)
    requires items != [] && ListedIn(o, items[..|items| - 1], keys) && keys <= more
    requires DedupKey(o, items[|items| - 1].artifactId) in more
    ensures ListedIn(o, items, more)
  {
    forall i | 0 <= i < |items| ensures DedupKey(o, items[i].artifactId) in more {
      if i < |items| - 1 {
        assert items[..|items| - 1][i] == items[i];
      }
    }
  }

  lemma {:induction false} ArtifactsKeep(b: Books, o: Occurrence, items: seq<Item>)
    requires Kept(b)
    ensures var r := OnArtifacts(b, o, items);
            && Kept(r.books) && Grows(b, r.books)
            && (!r.raised ==> ListedIn(o, items, r.books.seen))
            && (AllJobs(b) && TrustedListing(Listed(items)) ==> AllJobs(r.books))
  {
    if items != [] {
      var n := |items| - 1;
      ArtifactsKeep(b, o, items[..n]);
      var before, r := OnArtifacts(b, o, items[..n]), OnArtifacts(b, o, items);
      ArtifactKeeps(before, DedupKey(o, items[n].artifactId), items[n].attempt);
      if !r.raised {
        ListedOneMore(o, items, before.books.seen, r.books.seen);
      }
    }
  }

  lemma ReconcileKeeps(b: Books, o: Occurrence, listing: Listing)
    requires Kept(b)
    ensures var r := ReconcileOf(b, o, listing);
            && Kept(r.books) && Grows(b, r.books)
            && (!r.raised ==> listing.Listed? && ListedIn(o, listing.items, r.books.seen))
            && (AllJobs(b) && TrustedListing(listing) ==> AllJobs(r.books))
  {
    if listing.Listed? {
      ArtifactsKeep(b, o, listing.items);
    }
  }

  ghost predicate ListedIn(o: Occurrence, items: seq<Item>, keys: set<string>) {
    forall i :: 0 <= i < |items| ==> DedupKey(o, items[i].artifactId) in keys
  }

  // ---------------------------------------------------------------------------
  // One round
  // ---------------------------------------------------------------------------

  function BooksAt(b: Books, messages: seq<ReadMessage>, listings: nat -> Listing, i: nat): Books
    requires i <= |messages|
  {
    OnMessages(b, |messages|, messages[..i], listings).books
  }

  predicate Triggers(m: ReadMessage) {
    m.reading.Readable? && m.reading.event.eventType == RECORDING_FILE_GENERATED
  }

  /** The reconciliation of message i raises. */
  predicate FailsAt(b: Books, messages: seq<ReadMessage>, listings: nat -> Listing, i: nat)
    requires i < |messages|
  {
    && Triggers(messages[i])
    && ReconcileOf(BooksAt(b, messages, listings, i), OccurrenceOf(messages[i].reading.event), listings(i)).raised
  }

  /** None of the first n messages makes the reading raise. */
  ghost predicate NoneBreaks(messages: seq<ReadMessage>, n: nat)
    requires n <= |messages|
  {
    forall i :: 0 <= i < n ==> !messages[i].reading.Breaking?
  }

  lemma OneMoreUnbroken(messages: seq<ReadMessage>, n: nat)
    requires n + 1 == |messages|
    ensures NoneBreaks(messages, n + 1) <==> NoneBreaks(messages[..n], n) && !messages[n].reading.Breaking?
  {
  }

  /** A round is cut short exactly when one of its messages makes the reading raise. */
  lemma {:induction false} RoundStopsAtBreaking(b: Books, total: nat, messages: seq<ReadMessage>,
                                                listings: nat -> Listing)
    ensures OnMessages(b, total, messages, listings).raised <==> !NoneBreaks(messages, |messages|)
  {
    if messages != [] {
      var n := |messages| - 1;
      RoundStopsAtBreaking(b, total, messages[..n], listings);
      OneMoreUnbroken(messages, n);
    }
  }

  lemma PrefixGoesOn(b: Books, messages: seq<ReadMessage>, listings: nat -> Listing, n: nat)
    requires n <= |messages| && NoneBreaks(messages, n)
    ensures !OnMessages(b, |messages|, messages[..n], listings).raised
  {
    RoundStopsAtBreaking(b, |messages|, messages[..n], listings);
  }

  lemma OneIsHandled(before: Round, m: ReadMessage, listing: Listing)
    requires !before.raised && !m.reading.Breaking?
    ensures var r := OnMessage(before, m, listing);
            var raised := Triggers(m) && ReconcileOf(before.books, OccurrenceOf(m.reading.event), listing).raised;
            && |r.handled| == |before.handled| + 1
            && r.handled[..|before.handled|] == before.handled
            && r.handled[|before.handled|].ackId == m.ackId
            && (ToAcknowledge(r.handled[|before.handled|]) <==> !raised)
            && r.outcome.failed == before.outcome.failed + if raised then 1 else 0
  {
  }

  ghost predicate HandledAt(b: Books, messages: seq<ReadMessage>, listings: nat -> Listing, handled: seq<Handled>,
                            i: nat)
    requires i < |messages| && i < |handled|
  {
    handled[i].ackId == messages[i].ackId && (ToAcknowledge(handled[i]) <==> !FailsAt(b, messages, listings, i))
  }

  ghost predicate AllHandledAs(b: Books, messages: seq<ReadMessage>, listings: nat -> Listing,
                               handled: seq<Handled>) {
    && |handled| <= |messages|
    && forall i :: 0 <= i < |handled| ==> HandledAt(b, messages, listings, handled, i)
  }

  lemma HandlesOneMore(b: Books, messages: seq<ReadMessage>, listings: nat -> Listing, h: seq<Handled>, last: Handled)
    requires AllHandledAs(b, messages, listings, h) && |h| < |messages|
    requires last.ackId == messages[|h|].ackId
    requires ToAcknowledge(last) <==> !FailsAt(b, messages, listings, |h|)
    ensures AllHandledAs(b, messages, listings, h + [last])
  {
    forall i | 0 <= i < |h| ensures HandledAt(b, messages, listings, h + [last], i) {
      assert HandledAt(b, messages, listings, h, i);
    }
  }

  function HandledUpTo(b: Books, messages: seq<ReadMessage>, listings: nat -> Listing, n: nat): seq<Handled>
    requires n <= |messages|
  {
    OnMessages(b, |messages|, messages[..n], listings).handled
  }

  function FailedUpTo(b: Books, messages: seq<ReadMessage>, listings: nat -> Listing, n: nat): nat
    requires n <= |messages|
  {
    OnMessages(b, |messages|, messages[..n], listings).outcome.failed
  }

  lemma HandledStep(b: Books, messages: seq<ReadMessage>, listings: nat -> Listing, n: nat) returns (last: Handled)
    requires 0 < n <= |messages| && NoneBreaks(messages, n)
    ensures HandledUpTo(b, messages, listings, n) == HandledUpTo(b, messages, listings, n - 1) + [last]
    ensures last.ackId == messages[n - 1].ackId
    ensures ToAcknowledge(last) <==> !FailsAt(b, messages, listings, n - 1)
    ensures FailedUpTo(b, messages, listings, n)
            == FailedUpTo(b, messages, listings, n - 1) + if ToAcknowledge(last) then 0 else 1
  {
    RoundGoesOn(b, |messages|, messages, n - 1, listings);
    PrefixGoesOn(b, messages, listings, n - 1);
    var before := OnMessages(b, |messages|, messages[..n - 1], listings);
    OneIsHandled(before, messages[n - 1], listings(n - 1));
    last := OnMessage(before, messages[n - 1], listings(n - 1)).handled[|before.handled|];
  }

  /** What becomes of each of the first n messages of the round. */
  ghost predicate Tallied(b: Books, messages: seq<ReadMessage>, listings: nat -> Listing, n: nat)
    requires n <= |messages|
  {
    var handled := HandledUpTo(b, messages, listings, n);
    && |handled| == n
    && AllHandledAs(b, messages, listings, handled)
    && |Acknowledgeable(handled)| + FailedUpTo(b, messages, listings, n) == n
  }

  lemma TallyStep(b: Books, messages: seq<ReadMessage>, listings: nat -> Listing, n: nat)
    requires 0 < n <= |messages| && NoneBreaks(messages, n) && Tallied(b, messages, listings, n - 1)
    ensures Tallied(b, messages, listings, n)
  {
    var last := HandledStep(b, messages, listings, n);
    var h := HandledUpTo(b, messages, listings, n - 1);
    HandlesOneMore(b, messages, listings, h, last);
    assert (h + [last])[..n - 1] == h;
  }

  lemma {:induction false} EachIsHandled(b: Books, messages: seq<ReadMessage>, listings: nat -> Listing, n: nat)
    requires n <= |messages| && NoneBreaks(messages, n)
    ensures Tallied(b, messages, listings, n)
  {
    if n > 0 {
      EachIsHandled(b, messages, listings, n - 1);
      TallyStep(b, messages, listings, n);
    }
  }

  ghost predicate SentFor(results: seq<Handled>, ackId: string, i: nat)
    requires i < |results|
  {
    ToAcknowledge(results[i]) && results[i].ackId == ackId
  }

  lemma {:induction false} AcknowledgedMembers(results: seq<Handled>, ackId: string)
    ensures ackId in Acknowledgeable(results) <==> exists i :: 0 <= i < |results| && SentFor(results, ackId, i)
  {
    if results != [] {
      var n := |results| - 1;
      AcknowledgedMembers(results[..n], ackId);
      assert SentFor(results, ackId, n) <==> ToAcknowledge(results[n]) && results[n].ackId == ackId;
      assert forall i :: 0 <= i < n ==> (SentFor(results, ackId, i) <==> SentFor(results[..n], ackId, i));
    }
  }

  ghost predicate Served(b: Books, messages: seq<ReadMessage>, listings: nat -> Listing, ackId: string, i: nat)
    requires i < |messages|
  {
    messages[i].ackId == ackId && !FailsAt(b, messages, listings, i)
  }

  lemma SentExactlyForServed(b: Books, messages: seq<ReadMessage>, listings: nat -> Listing, handled: seq<Handled>,
                             ackId: string)
    requires |handled| == |messages| && AllHandledAs(b, messages, listings, handled)
    ensures ackId in Acknowledgeable(handled) <==>
            exists i :: 0 <= i < |messages| && Served(b, messages, listings, ackId, i)
  {
    AcknowledgedMembers(handled, ackId);
    forall i | 0 <= i < |messages|
      ensures SentFor(handled, ackId, i) <==> Served(b, messages, listings, ackId, i)
    {
      assert HandledAt(b, messages, listings, handled, i);
    }
  }

  lemma ReadRoundAcknowledges(b: Books, messages: seq<ReadMessage>, listings: nat -> Listing, ackId: string)
    ensures var r := OnMessages(b, |messages|, messages, listings);
            && (r.raised <==> !NoneBreaks(messages, |messages|))
            && |ToSend(r)| == (if r.raised then 0 else |messages| - r.outcome.failed)
            && (ackId in ToSend(r) <==>
                  !r.raised && exists i :: 0 <= i < |messages| && Served(b, messages, listings, ackId, i))
  {
    RoundStopsAtBreaking(b, |messages|, messages, listings);
    if NoneBreaks(messages, |messages|) {
      assert messages[..|messages|] == messages;
      EachIsHandled(b, messages, listings, |messages|);
      SentExactlyForServed(b, messages, listings, HandledUpTo(b, messages, listings, |messages|), ackId);
    }
  }

  /** The message has a type, and a text that is JSON but neither an object nor null. */
  ghost predicate BreaksAt(pulled: seq<PulledMessage>, i: nat)
    requires i < |pulled|
  {
    pulled[i].content.Breaks()
  }

  /** Message i has that acknowledgement id, and no reconciliation of it raised. */
  ghost predicate HandledFor(b: Books, pulled: seq<PulledMessage>, listings: nat -> Listing, ackId: string, i: nat)
    requires i < |pulled|
  {
    pulled[i].ackId == ackId && !FailsAt(b, AllRead(pulled), listings, i)
  }

  /** A round is cut short if and only if one of its messages breaks, and then acknowledges nothing; otherwise
      exactly the messages whose reconciliation raised stay unacknowledged. */
  lemma RoundAcknowledgesTheRest(b: Books, pulled: seq<PulledMessage>, listings: nat -> Listing, ackId: string)
    ensures var r := OnMessages(b, |pulled|, AllRead(pulled), listings);
            && (r.raised <==> exists i :: 0 <= i < |pulled| && BreaksAt(pulled, i))
            && |ToSend(r)| == (if r.raised then 0 else |pulled| - r.outcome.failed)
            && (ackId in ToSend(r) <==>
                  !r.raised && exists i :: 0 <= i < |pulled| && HandledFor(b, pulled, listings, ackId, i))
  {
    var messages := AllRead(pulled);
    ReadRoundAcknowledges(b, messages, listings, ackId);
    forall i | 0 <= i < |pulled|
      ensures messages[i].reading.Breaking? <==> BreaksAt(pulled, i)
      ensures Served(b, messages, listings, ackId, i) <==> HandledFor(b, pulled, listings, ackId, i)
    {
      BreakingExactly(pulled[i].content);
    }
  }

  lemma {:induction false} NonEmptyKeepsAll(ids: seq<string>)
    requires forall i :: 0 <= i < |ids| ==> ids[i] != ""
    ensures NonEmpty(ids) == ids
  {
    if ids != [] {
      NonEmptyKeepsAll(ids[..|ids| - 1]);
    }
  }

  lemma {:induction false} ParsedHaveAckIds(entries: seq<RawEntry>)
    ensures forall i :: 0 <= i < |Parsed(entries)| ==> Parsed(entries)[i].ackId != ""
  {
    if entries != [] {
      ParsedHaveAckIds(entries[..|entries| - 1]);
    }
  }

  /** An acknowledgement built from parsed messages is never refused as empty, and never loses an
      identifier. */
  lemma AcknowledgementIsNeverRefused(b: Books, entries: seq<RawEntry>, listings: nat -> Listing)
    ensures var messages := Parsed(entries);
            var ids := ToSend(OnMessages(b, |messages|, AllRead(messages), listings));
            ids != [] ==> AcknowledgeRequest(ids) == Success(ids)
  {
    var messages := Parsed(entries);
    ParsedHaveAckIds(entries);
    var ids := ToSend(OnMessages(b, |messages|, AllRead(messages), listings));
    forall k | 0 <= k < |ids| ensures ids[k] != "" {
      RoundAcknowledgesTheRest(b, messages, listings, ids[k]);
      var i :| 0 <= i < |messages| && HandledFor(b, messages, listings, ids[k], i);
    }
    NonEmptyKeepsAll(ids);
  }

  lemma {:induction false} RoundKeeps(b: Books, total: nat, messages: seq<ReadMessage>, listings: nat -> Listing)
    requires Kept(b)
    ensures var r := OnMessages(b, total, messages, listings);
            && Kept(r.books) && Grows(b, r.books)
            && (AllJobs(b) && (forall i :: 0 <= i < |messages| ==> TrustedListing(listings(i))) ==> AllJobs(r.books))
  {
    if messages != [] {
      var n := |messages| - 1;
      RoundKeeps(b, total, messages[..n], listings);
      if Triggers(messages[n]) {
        ReconcileKeeps(OnMessages(b, total, messages[..n], listings).books, OccurrenceOf(messages[n].reading.event),
                       listings(n));
      }
    }
  }

  /** A message that does not fail is served when its turn comes, and stays served. */
  lemma ServedStep(before: Round, m: ReadMessage, listing: Listing)
    requires Kept(before.books)
    ensures before.books.seen <= OnMessage(before, m, listing).books.seen
    ensures !before.raised && Triggers(m)
            && !ReconcileOf(before.books, OccurrenceOf(m.reading.event), listing).raised ==>
              && listing.Listed?
              && ListedIn(OccurrenceOf(m.reading.event), listing.items, OnMessage(before, m, listing).books.seen)
  {
    if Triggers(m) {
      ReconcileKeeps(before.books, OccurrenceOf(m.reading.event), listing);
    }
  }

  ghost predicate ServedBy(b: Books, messages: seq<ReadMessage>, listings: nat -> Listing, i: nat, n: nat)
    requires i < |messages| && messages[i].reading.Readable? && n <= |messages|
  {
    && listings(i).Listed?
    && ListedIn(OccurrenceOf(messages[i].reading.event), listings(i).items, BooksAt(b, messages, listings, n).seen)
  }

  lemma SeenGrowsInRound(b: Books, messages: seq<ReadMessage>, listings: nat -> Listing, n: nat)
    requires Kept(b) && n < |messages|
    ensures BooksAt(b, messages, listings, n).seen <= BooksAt(b, messages, listings, n + 1).seen
  {
    RoundGoesOn(b, |messages|, messages, n, listings);
    RoundKeeps(b, |messages|, messages[..n], listings);
    ServedStep(OnMessages(b, |messages|, messages[..n], listings), messages[n], listings(n));
  }

  lemma ServedInTurn(b: Books, messages: seq<ReadMessage>, listings: nat -> Listing, i: nat)
    requires Kept(b) && i < |messages| && Triggers(messages[i]) && !FailsAt(b, messages, listings, i)
    requires NoneBreaks(messages, i)
    ensures ServedBy(b, messages, listings, i, i + 1)
  {
    RoundGoesOn(b, |messages|, messages, i, listings);
    PrefixGoesOn(b, messages, listings, i);
    RoundKeeps(b, |messages|, messages[..i], listings);
    ServedStep(OnMessages(b, |messages|, messages[..i], listings), messages[i], listings(i));
  }

  lemma ServedStays(b: Books, messages: seq<ReadMessage>, listings: nat -> Listing, i: nat, n: nat)
    requires Kept(b) && i < |messages| && messages[i].reading.Readable? && n < |messages|
    requires ServedBy(b, messages, listings, i, n)
    ensures ServedBy(b, messages, listings, i, n + 1)
  {
    SeenGrowsInRound(b, messages, listings, n);
  }

  /** What message i listed is in the poller's memory at the end of the round, unless it failed. */
  lemma {:induction false} ServedByEndOfRound(b: Books, messages: seq<ReadMessage>, listings: nat -> Listing, i: nat,
                                              n: nat)
    requires Kept(b) && i < n <= |messages| && Triggers(messages[i]) && !FailsAt(b, messages, listings, i)
    requires NoneBreaks(messages, i)
    ensures ServedBy(b, messages, listings, i, n)
  {
    if i == n - 1 {
      ServedInTurn(b, messages, listings, i);
    } else {
      ServedByEndOfRound(b, messages, listings, i, n - 1);
      ServedStays(b, messages, listings, i, n - 1);
    }
  }

  // ---------------------------------------------------------------------------
  // Runs
  // ---------------------------------------------------------------------------

  type MessageId = int

  datatype World = World(
    published: map<MessageId, Content>,   // every message ever published
    queue: set<MessageId>,                // those the queue still holds
    acknowledged: set<MessageId>,         // those for which an acknowledgement was sent
    books: Books,
    everReturned: set<string>)            // keys of all posts that returned, by any poller

  datatype Delivery = Delivery(message: MessageId, ackId: string, deliveryAttempt: int)

  datatype Action =
    | Publish(id: MessageId, content: Content)
    | Poll(deliveries: seq<Delivery>, listings: nat -> Listing)
    | Forget(messages: set<MessageId>)
    | Restart

  function Delivered(w: World, deliveries: seq<Delivery>): seq<PulledMessage>
    requires forall i :: 0 <= i < |deliveries| ==> deliveries[i].message in w.published
  {
    seq(|deliveries|, i requires 0 <= i < |deliveries| =>
      PulledMessage(deliveries[i].ackId, w.published[deliveries[i].message], "", deliveries[i].deliveryAttempt))
  }

  /** The queue hands out any published messages, even acknowledged ones, even twice in a round, under
      acknowledgement ids that are not shared. */
  ghost predicate Deliverable(w: World, deliveries: seq<Delivery>) {
    && (forall i :: 0 <= i < |deliveries| ==> deliveries[i].message in w.published)
    && (forall i, j :: 0 <= i < j < |deliveries| ==> deliveries[i].ackId != deliveries[j].ackId)
  }

  function RoundIn(w: World, deliveries: seq<Delivery>, listings: nat -> Listing): Round
    requires forall i :: 0 <= i < |deliveries| ==> deliveries[i].message in w.published
  {
    OnMessages(w.books, |deliveries|, AllRead(Delivered(w, deliveries)), listings)
  }

  ghost function MessagesOf(deliveries: seq<Delivery>, ackIds: seq<string>): set<MessageId> {
    set i | 0 <= i < |deliveries| && deliveries[i].ackId in ackIds :: deliveries[i].message
  }

  /** The queue forgets a message only after an acknowledgement of one of its deliveries was sent, in
      that round or in any earlier one, and it may never do so. */
  ghost predicate Next(w: World, a: Action, w': World) {
    match a
    case Publish(id, content) =>
      id !in w.published && w' == w.(published := w.published[id := content], queue := w.queue + {id})
    case Poll(deliveries, listings) =>
      && Deliverable(w, deliveries)
      && var round := RoundIn(w, deliveries, listings);
         w' == w.(acknowledged := w.acknowledged + MessagesOf(deliveries, ToSend(round)),
                  books := round.books,
                  everReturned := w.everReturned + set key | key in round.books.returned)
    case Forget(messages) =>
      messages <= w.acknowledged && w' == w.(queue := w.queue - messages)
    case Restart =>
      w' == w.(books := Books({}, [], w.books.jobs))
  }

  ghost predicate Follows(run: seq<World>, actions: seq<Action>, i: nat)
    requires i + 1 < |run| && |run| == |actions| + 1
  {
    Next(run[i], actions[i], run[i + 1])
  }

  ghost predicate Run(run: seq<World>, actions: seq<Action>) {
    && |run| == |actions| + 1
    && run[0] == World(map[], {}, {}, Books({}, [], []), {})
    && forall i :: 0 <= i < |actions| ==> Follows(run, actions, i)
  }

  /** Delivery i of the round was reconciled without an error, all it listed having been posted by its end. */
  ghost predicate ServedBetween(w: World, a: Action, w': World, i: nat, m: MessageId) {
    && a.Poll? && i < |a.deliveries| && a.deliveries[i].message == m
    && m in w.published && w.published[m].Reading().Readable?
    && a.listings(i).Listed?
    && ListedIn(OccurrenceOf(w.published[m].Reading().event), a.listings(i).items, w'.everReturned)
  }

  ghost predicate ServedAt(run: seq<World>, actions: seq<Action>, k: nat, i: nat, m: MessageId) {
    |run| == |actions| + 1 && k < |actions| && ServedBetween(run[k], actions[k], run[k + 1], i, m)
  }

  ghost predicate WorldOk(w: World) {
    && Kept(w.books) && w.books.seen <= w.everReturned
    && w.acknowledged <= w.published.Keys
    && w.published.Keys <= w.queue + w.acknowledged
  }

  lemma StepKeepsWorld(w: World, a: Action, w': World)
    requires WorldOk(w) && Next(w, a, w')
    ensures WorldOk(w') && w.everReturned <= w'.everReturned
    ensures forall m :: m in w.published ==> m in w'.published && w'.published[m] == w.published[m]
  {
    if a.Poll? {
      var messages := AllRead(Delivered(w, a.deliveries));
      RoundKeeps(w.books, |messages|, messages, a.listings);
    }
  }

  lemma {:induction false} RunKeepsWorld(run: seq<World>, actions: seq<Action>, n: nat)
    requires Run(run, actions) && n < |run|
    ensures WorldOk(run[n])
  {
    if n > 0 {
      RunKeepsWorld(run, actions, n - 1);
      assert Follows(run, actions, n - 1);
      StepKeepsWorld(run[n - 1], actions[n - 1], run[n]);
    }
  }

  ghost predicate Recording(w: World, m: MessageId) {
    && m in w.published && w.published[m].Reading().Readable?
    && w.published[m].Reading().event.eventType == RECORDING_FILE_GENERATED
  }

  /** Message m, acknowledged in a round, was read without an exception, like all those of the round, and
      if it triggers it was served in it. */
  lemma AcknowledgedInRound(w: World, deliveries: seq<Delivery>, listings: nat -> Listing, m: MessageId)
    returns (i: nat)
    requires Kept(w.books) && Deliverable(w, deliveries)
    requires m in MessagesOf(deliveries, ToSend(RoundIn(w, deliveries, listings)))
    ensures i < |deliveries| && deliveries[i].message == m && !w.published[m].Breaks()
    ensures Recording(w, m) ==>
              && listings(i).Listed?
              && ListedIn(OccurrenceOf(w.published[m].Reading().event), listings(i).items,
                          RoundIn(w, deliveries, listings).books.seen)
  {
    var messages := AllRead(Delivered(w, deliveries));
    i :| 0 <= i < |deliveries| && deliveries[i].message == m
         && deliveries[i].ackId in ToSend(RoundIn(w, deliveries, listings));
    ReadRoundAcknowledges(w.books, messages, listings, deliveries[i].ackId);
    var j :| 0 <= j < |messages| && Served(w.books, messages, listings, deliveries[i].ackId, j);
    assert i == j && messages[i].reading == w.published[m].Reading();
    BreakingExactly(w.published[m]);
    if Recording(w, m) {
      ServedByEndOfRound(w.books, messages, listings, i, |messages|);
      assert messages[..|messages|] == messages;
    }
  }

  lemma StaysRecording(w: World, a: Action, w': World, m: MessageId)
    requires WorldOk(w) && Next(w, a, w') && m in w.acknowledged
    ensures Recording(w, m) <==> Recording(w', m)
  {
    StepKeepsWorld(w, a, w');
  }

  lemma RunGoesOn(run: seq<World>, actions: seq<Action>, k: nat)
    requires Run(run, actions) && k < |actions|
    ensures WorldOk(run[k]) && Next(run[k], actions[k], run[k + 1])
  {
    RunKeepsWorld(run, actions, k);
    assert Follows(run, actions, k);
  }

  lemma AcknowledgedStep(w: World, a: Action, w': World, m: MessageId) returns (i: nat)
    requires WorldOk(w) && Next(w, a, w') && m in w'.acknowledged && Recording(w', m)
    ensures if m in w.acknowledged then Recording(w, m) else ServedBetween(w, a, w', i, m)
  {
    i := 0;
    if m in w.acknowledged {
      StaysRecording(w, a, w', m);
    } else {
      i := AcknowledgedInRound(w, a.deliveries, a.listings, m);
      RoundKeeps(w.books, |a.deliveries|, AllRead(Delivered(w, a.deliveries)), a.listings);
    }
  }

  /** A recording event was served before an acknowledgement of it was first sent. */
  lemma {:induction false} AcknowledgedWasServed(run: seq<World>, actions: seq<Action>, n: nat, m: MessageId)
    returns (k: nat, i: nat)
    requires Run(run, actions) && n < |run| && m in run[n].acknowledged && Recording(run[n], m)
    ensures k < n && ServedAt(run, actions, k, i, m)
  {
    assert n > 0;
    k := n - 1;
    RunGoesOn(run, actions, k);
    i := AcknowledgedStep(run[k], actions[k], run[k + 1], m);
    if m in run[k].acknowledged {
      k, i := AcknowledgedWasServed(run, actions, k, m);
    }
  }

  /** No lost recording: in every run, a readable "file generated" message is still in the queue, or
      a reconciliation of it returned, everything it listed having been posted in this run. */
  lemma NoRecordingIsLost(run: seq<World>, actions: seq<Action>, n: nat, m: MessageId) returns (k: nat, i: nat)
    requires Run(run, actions) && n < |run| && Recording(run[n], m)
    ensures m in run[n].queue || (k < n && ServedAt(run, actions, k, i, m))
  {
    k, i := 0, 0;
    if m !in run[n].queue {
      RunKeepsWorld(run, actions, n);
      k, i := AcknowledgedWasServed(run, actions, n, m);
    }
  }

  /** A message whose reading raises never leaves the queue, and no round that receives it acknowledges
      anything. */
  lemma {:induction false} BreakingIsNeverAcknowledged(run: seq<World>, actions: seq<Action>, n: nat, m: MessageId)
    requires Run(run, actions) && n < |run| && m in run[n].published && run[n].published[m].Breaks()
    ensures m in run[n].queue && m !in run[n].acknowledged
    ensures n < |actions| && actions[n].Poll?
            && (exists i :: 0 <= i < |actions[n].deliveries| && DeliversAt(actions[n], i, m))
            ==> run[n + 1].acknowledged == run[n].acknowledged
  {
    if n > 0 {
      RunKeepsWorld(run, actions, n - 1);
      assert Follows(run, actions, n - 1);
      var w, a := run[n - 1], actions[n - 1];
      StepKeepsWorld(w, a, run[n]);
      if m in w.published {
        BreakingIsNeverAcknowledged(run, actions, n - 1, m);
      }
      if m in run[n].acknowledged {
        var i := AcknowledgedInRound(w, a.deliveries, a.listings, m);
      }
    }
    RunKeepsWorld(run, actions, n);
    if n < |actions| && actions[n].Poll? {
      assert Follows(run, actions, n);
      BreakingRound(run[n], actions[n], run[n + 1], m);
    }
  }

  ghost predicate DeliversAt(a: Action, i: nat, m: MessageId)
    requires a.Poll? && i < |a.deliveries|
  {
    a.deliveries[i].message == m
  }

  lemma BreakingRound(w: World, a: Action, w': World, m: MessageId)
    requires a.Poll? && Next(w, a, w') && m in w.published && w.published[m].Breaks()
    ensures (exists i :: 0 <= i < |a.deliveries| && DeliversAt(a, i, m)) ==> w'.acknowledged == w.acknowledged
  {
    var messages := AllRead(Delivered(w, a.deliveries));
    RoundStopsAtBreaking(w.books, |messages|, messages, a.listings);
    if i :| 0 <= i < |a.deliveries| && DeliversAt(a, i, m) {
      BreakingExactly(w.published[m]);
      assert messages[i].reading.Breaking?;
      assert MessagesOf(a.deliveries, []) == {};
    }
  }

  /** At most once: at any point of a run, no key was posted twice with success by the present poller,
      and the server has at most one job for any key. */
  lemma PostedAtMostOnce(run: seq<World>, actions: seq<Action>, n: nat)
    requires Run(run, actions) && n < |run|
    ensures NoRepeats(run[n].books.returned) && NoRepeats(run[n].books.jobs)
  {
    RunKeepsWorld(run, actions, n);
  }

  ghost predicate TrustedRun(actions: seq<Action>) {
    forall k :: 0 <= k < |actions| && actions[k].Poll? ==> forall i: nat :: TrustedListing(actions[k].listings(i))
  }

  ghost predicate EverReturnedHaveJobs(w: World) {
    forall key :: key in w.everReturned ==> key in w.books.jobs
  }

  lemma StepKeepsJobs(w: World, a: Action, w': World)
    requires WorldOk(w) && Next(w, a, w') && EverReturnedHaveJobs(w)
    requires a.Poll? ==> forall i: nat :: TrustedListing(a.listings(i))
    ensures EverReturnedHaveJobs(w')
  {
    if a.Poll? {
      var messages := AllRead(Delivered(w, a.deliveries));
      assert AllJobs(w.books);
      RoundKeeps(w.books, |messages|, messages, a.listings);
    }
  }

  lemma {:induction false} ReturnedHaveJobs(run: seq<World>, actions: seq<Action>, n: nat)
    requires Run(run, actions) && TrustedRun(actions) && n < |run|
    ensures EverReturnedHaveJobs(run[n])
  {
    if n > 0 {
      ReturnedHaveJobs(run, actions, n - 1);
      RunKeepsWorld(run, actions, n - 1);
      assert Follows(run, actions, n - 1);
      StepKeepsJobs(run[n - 1], actions[n - 1], run[n]);
    }
  }

  /** Delivery i of message m is a recording, whose listing was served, and all it names has a job. */
  ghost predicate HasJobs(w: World, a: Action, i: nat, m: MessageId, jobs: seq<string>) {
    && a.Poll? && a.listings(i).Listed? && m in w.published && w.published[m].Reading().Readable?
    && forall x :: 0 <= x < |a.listings(i).items| ==>
         DedupKey(OccurrenceOf(w.published[m].Reading().event), a.listings(i).items[x].artifactId) in jobs
  }

  lemma ServedHaveJobs(w: World, a: Action, w': World, i: nat, m: MessageId, later: World)
    requires ServedBetween(w, a, w', i, m) && w'.everReturned <= later.everReturned && EverReturnedHaveJobs(later)
    ensures HasJobs(w, a, i, m, later.books.jobs)
  {
  }

  lemma ServedAtHaveJobs(run: seq<World>, actions: seq<Action>, k: nat, i: nat, m: MessageId, n: nat)
    requires Run(run, actions) && TrustedRun(actions) && k < n < |run| && ServedAt(run, actions, k, i, m)
    ensures HasJobs(run[k], actions[k], i, m, run[n].books.jobs)
  {
    EverReturnedGrows(run, actions, k + 1, n);
    ReturnedHaveJobs(run, actions, n);
    ServedHaveJobs(run[k], actions[k], run[k + 1], i, m, run[n]);
  }

  /** Exactly once: when posts that return are accepted, every artifact listed for a message that has
      left the queue has one job, and one only, whatever was redelivered, failed or restarted. */
  lemma DepartedMessagesHaveOneJob(run: seq<World>, actions: seq<Action>, n: nat, m: MessageId) returns (k: nat, i: nat)
    requires Run(run, actions) && TrustedRun(actions) && n < |run|
    requires Recording(run[n], m) && m !in run[n].queue
    ensures k < n && ServedAt(run, actions, k, i, m)
    ensures HasJobs(run[k], actions[k], i, m, run[n].books.jobs)
    ensures NoRepeats(run[n].books.jobs)
  {
    k, i := NoRecordingIsLost(run, actions, n, m);
    ServedAtHaveJobs(run, actions, k, i, m, n);
    PostedAtMostOnce(run, actions, n);
  }

  lemma {:induction false} EverReturnedGrows(run: seq<World>, actions: seq<Action>, m: nat, n: nat)
    requires Run(run, actions) && m <= n < |run|
    ensures run[m].everReturned <= run[n].everReturned
  {
    if m < n {
      EverReturnedGrows(run, actions, m, n - 1);
      RunKeepsWorld(run, actions, n - 1);
      assert Follows(run, actions, n - 1);
      StepKeepsWorld(run[n - 1], actions[n - 1], run[n]);
    }
  }
}
