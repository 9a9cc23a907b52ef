/**
 A message that stops the consumption of the queue (connector_service/meet_events.py,
 connector_service/meet_poller.py): the text 1234 under a type, delivered beside the same text without one.
 Nothing is acknowledged, although the second message alone would be.
 */
module BrokenRound {
  import opened Wrappers
  import opened MeetEvents
  import opened Ingestion
  import opened IngestionRuns

  const TYPED := Content(map["ce-type" := RECORDING_FILE_GENERATED], NUMBER)
  const UNTYPED := Content(map[], NUMBER)
  const BOTH := map[1 := TYPED, 2 := UNTYPED]
  const NOTHING := Books({}, [], [])

  function Deliveries(): seq<Delivery> { [Delivery(1, "a", 0), Delivery(2, "b", 0)] }

  function NoListing(): nat -> Listing { (i: nat) => ListRaises }

  lemma FirstBreaks(b: Books, total: nat, messages: seq<ReadMessage>, listings: nat -> Listing)
    requires messages != [] && messages[0].reading.Breaking?
    ensures OnMessages(b, total, messages, listings).raised && OnMessages(b, total, messages, listings).books == b
  {
    var first := messages[..1];
    var none := OnMessages(b, total, first[..0], listings);
    assert none == Round(b, none.outcome, [], false);
    assert OnMessages(b, total, first, listings) == OnMessage(none, messages[0], listings(0));
    StoppedStays(b, total, messages, 1, listings);
  }

  lemma BlockedRound(w: World, listings: nat -> Listing)
    requires w.published == BOTH && w.books == NOTHING
    ensures RoundIn(w, Deliveries(), listings).raised && RoundIn(w, Deliveries(), listings).books == NOTHING
  {
    NumberBreaks();
    FirstBreaks(NOTHING, 2, AllRead(Delivered(w, Deliveries())), listings);
  }

  lemma OneUnreadable(b: Books, messages: seq<ReadMessage>, listings: nat -> Listing, ackId: string)
    requires |messages| == 1 && messages[0] == ReadMessage(ackId, Unreadable, "", 0)
    ensures ToSend(OnMessages(b, 1, messages, listings)) == [ackId]
  {
    var none := OnMessages(b, 1, messages[..0], listings);
    assert none == Round(b, none.outcome, [], false);
    var r := OnMessage(none, messages[0], listings(0));
    assert OnMessages(b, 1, messages, listings) == r;
    assert r.handled == [Handled(ackId, None, false)] && !r.raised;
    assert r.handled[..0] == [];
    assert Acknowledgeable(r.handled) == Acknowledgeable([]) + [ackId];
  }

  lemma AloneRound(w: World, listings: nat -> Listing)
    requires w.published == BOTH
    ensures ToSend(RoundIn(w, [Delivery(2, "b", 0)], listings)) == ["b"]
  {
    NumberBreaks();
    OneUnreadable(w.books, AllRead(Delivered(w, [Delivery(2, "b", 0)])), listings, "b");
  }

  lemma BlockedStep(w: World, listings: nat -> Listing)
    requires w == World(BOTH, {1, 2}, {}, NOTHING, {})
    ensures Next(w, Poll(Deliveries(), listings), w)
  {
    BlockedRound(w, listings);
    assert MessagesOf(Deliveries(), []) == {};
    assert w.everReturned + (set key | key in NOTHING.returned) == w.everReturned;
  }

  lemma PublishedBoth()
    ensures var w1 := World(map[1 := TYPED], {1}, {}, NOTHING, {});
            && Next(World(map[], {}, {}, NOTHING, {}), Publish(1, TYPED), w1)
            && Next(w1, Publish(2, UNTYPED), World(BOTH, {1, 2}, {}, NOTHING, {}))
  {
  }

  lemma ThreeSteps(run: seq<World>, actions: seq<Action>)
    requires |run| == 4 && |actions| == 3 && run[0] == World(map[], {}, {}, NOTHING, {})
    requires Next(run[0], actions[0], run[1]) && Next(run[1], actions[1], run[2]) && Next(run[2], actions[2], run[3])
    ensures Run(run, actions)
  {
    assert Follows(run, actions, 0) && Follows(run, actions, 1) && Follows(run, actions, 2);
  }

  /** A run that gets there. */
  lemma NumberBlocksTheRound() returns (run: seq<World>, actions: seq<Action>)
    ensures Run(run, actions) && |run| == 4 && run[2].published == BOTH
    ensures actions[2].Poll? && actions[2].deliveries == Deliveries() && run[3].acknowledged == {}
    ensures ToSend(RoundIn(run[2], [Delivery(2, "b", 0)], actions[2].listings)) == ["b"]
  {
    var w1 := World(map[1 := TYPED], {1}, {}, NOTHING, {});
    var w2 := World(BOTH, {1, 2}, {}, NOTHING, {});
    run := [World(map[], {}, {}, NOTHING, {}), w1, w2, w2];
    actions := [Publish(1, TYPED), Publish(2, UNTYPED), Poll(Deliveries(), NoListing())];
    PublishedBoth();
    BlockedStep(w2, NoListing());
    ThreeSteps(run, actions);
    AloneRound(w2, NoListing());
  }
}
