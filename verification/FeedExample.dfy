/** Two concrete connections whose loss counter is wrong: an update put off, and a negative configured fee. */
module FeedExample {
  import opened Prelude
  import opened QueueTrails
  import opened QuoteCaching
  import opened SpreadRows
  import opened SpreadLaws
  import opened SpreadFeeds

  lemma RunAppends(size: nat, c: Connection, events: seq<Event>, e: Event)
    ensures Run(size, c, events + [e]) == Step(size, Run(size, c, events), e)
  {
    assert (events + [e])[..|events|] == events;
  }

  lemma RunThree(size: nat, c: Connection, d: Event, e: Event, f: Event)
    ensures Run(size, c, [d, e, f]) == Step(size, Step(size, Step(size, c, d), e), f)
  {
    hide Step;
    assert [] + [d] == [d] && [d] + [e] == [d, e] && [d, e] + [f] == [d, e, f];
    assert Run(size, c, []) == c;
    hide Run;
    RunAppends(size, c, [], d);
    RunAppends(size, c, [d], e);
    RunAppends(size, c, [d, e], f);
  }

  lemma RunThreeMore(size: nat, c: Connection, a: seq<Event>, d: Event, e: Event, f: Event)
    ensures Run(size, c, a + [d, e, f]) == Step(size, Step(size, Step(size, Run(size, c, a), d), e), f)
  {
    hide Step;
    hide Run;
    assert a + [d] + [e] + [f] == a + [d, e, f];
    RunAppends(size, c, a, d);
    RunAppends(size, c, a + [d], e);
    RunAppends(size, c, a + [d] + [e], f);
  }

  // ---- single steps of a client whose queue holds one message --------------

  lemma PushIntoEmpty(c: Connection)
    requires c.queue == []
    ensures var n := c.sequence + 1;
            Pushed(1, c) == c.(sequence := n, queue := [n], trail := c.trail.(accepted := c.trail.accepted + [n]))
  {
  }

  lemma PushIntoFull(c: Connection)
    requires |c.queue| == 1
    ensures var n := c.sequence + 1;
            Pushed(1, c) == c.(sequence := n, queue := [n],
                               trail := c.trail.(head := c.trail.head + 1, accepted := c.trail.accepted + [n]))
  {
  }

  lemma DeliverTheOne(c: Connection, eager: bool)
    requires |c.queue| == 1
    ensures Step(1, c, Deliver(eager))
            == c.(queue := [], trail := c.trail.Take(), client := OnMessage(c.client, c.queue[0], eager),
                  turns := c.turns + [Handle(c.queue[0], eager)])
  {
    assert c.queue[1..] == [];
  }

  // ---- an update put off --------------------------------------------------

  const ONE_RECEIVED := Connection(0, 1, [], Trail([1], 1, [0]), [], Client(Some(1), 0, []), [Handle(1, true)])

  /** A first message that builds is delivered and counted at once. */
  lemma FirstMessage(e: Event)
    requires e.Beat? || (e.Update? && Computed(e.cache, e.trading, e.fees, e.now).Ok?)
    ensures Step(1, Step(1, Connected(0, 0), e), Deliver(true)) == ONE_RECEIVED
  {
    hide Computed;
    hide Pushed;
    var start := Connected(0, 0);
    PushIntoEmpty(start);
    var pushed := Step(1, start, e);
    assert pushed == start.(sequence := 1, queue := [1], trail := Trail([1], 0, []));
    DeliverTheOne(pushed, true);
  }

  /** One message is evicted, nothing fails, and the counter ends at minus one. */
  lemma DeferredDeliveryMiscounts()
    ensures var c := Run(1, Connected(0, 0), [Beat, Deliver(true), Beat, Beat, Deliver(false), Rendering]);
            && c.client.missed == -1 && c.failed == []
            && c.trail.taken == [0, 2] && Missing(c.trail.taken, 0, 2) == 1
  {
    hide Run;
    hide Step;
    hide Missing;
    var first := [Beat, Deliver(true), Beat];
    assert first + [Beat, Deliver(false), Rendering] == [Beat, Deliver(true), Beat, Beat, Deliver(false), Rendering];
    RunThree(1, Connected(0, 0), Beat, Deliver(true), Beat);
    RunThreeMore(1, Connected(0, 0), first, Beat, Deliver(false), Rendering);
    FirstMessage(Beat);
    EvictAndDefer();
    MissingBetween([0, 2], 0, 1);
  }

  lemma EvictAndDefer()
    ensures var late := Step(1, Step(1, Step(1, ONE_RECEIVED, Beat), Beat), Deliver(false));
            Step(1, late, Rendering)
            == Connection(0, 3, [], Trail([1, 2, 3], 3, [0, 2]), [], Client(Some(3), -1, []),
                          [Handle(1, true), Handle(3, false), Render])
  {
    hide Pushed;
    hide PendingTotal;
    var second := Step(1, ONE_RECEIVED, Beat);
    PushIntoEmpty(ONE_RECEIVED);
    assert second == ONE_RECEIVED.(sequence := 2, queue := [2], trail := Trail([1, 2], 1, [0]));
    PushIntoFull(second);
    var third := Step(1, second, Beat);
    assert third == second.(sequence := 3, queue := [3], trail := Trail([1, 2, 3], 2, [0]));
    DeliverTheOne(third, false);
    var late := Step(1, third, Deliver(false));
    assert late.client == Client(Some(3), 0, [3]);
    OnePending(3, 3);
  }

  // ---- a negative configured fee ------------------------------------------

  const SYMBOL := "BTC-USDT"
  const ON_BINANCE: Quote := RawQuote(BINANCE, SPOT, SYMBOL, 100.0, 1.0, 101.0, 1.0, 0, 0, None)
  const ON_BYBIT: Quote := RawQuote(BYBIT, SPOT, SYMBOL, 100.0, 1.0, 101.0, 1.0, 0, 0, None)
  const TRADING := Trading(SPOT, [SYMBOL], 1000, 1500, 0.0, 10.0)

  /** Binance is configured with a rebate, which the configuration does not refuse. */
  const FEES: TakerFees := map[BINANCE := -0.0001, BYBIT := 0.001]

  /** What the engine holds after `UpdateTakerFee(BINANCE, 0.001)`. */
  const MENDED: TakerFees := FEES[BINANCE := 0.001]

  /** With one exchange quoted nothing is compared; with both, the rebate raises; with a proper fee nothing does. */
  lemma WhenItRaises()
    ensures Computed(After([ON_BINANCE]), TRADING, FEES, 0).Ok?
    ensures Computed(After([ON_BINANCE, ON_BYBIT]), TRADING, FEES, 0).Raised?
    ensures Computed(After([ON_BINANCE, ON_BYBIT]), TRADING, MENDED, 0).Ok?
  {
    hide Computed;
    hide Lookup;
    hide Updated;
    var one, both := After([ON_BINANCE]), After([ON_BINANCE, ON_BYBIT]);
    CachesAre();
    RunsKeyed([ON_BINANCE]);
    RunsKeyed([ON_BINANCE, ON_BYBIT]);
    SliceRaisesIff(one, TRADING, FEES, 0);
    SliceRaisesIff(both, TRADING, FEES, 0);
    SliceRaisesIff(both, TRADING, MENDED, 0);
    assert QuotedBelowZero(both, TRADING, FEES, (SYMBOL, BINANCE, BYBIT));
  }

  lemma CachesAre()
    ensures forall e :: e != BINANCE ==> Lookup(After([ON_BINANCE]), (e, SPOT, SYMBOL)).None?
    ensures Lookup(After([ON_BINANCE, ON_BYBIT]), (BINANCE, SPOT, SYMBOL)).Some?
    ensures Lookup(After([ON_BINANCE, ON_BYBIT]), (BYBIT, SPOT, SYMBOL)).Some?
  {
    hide Updated;
    assert [ON_BINANCE][..0] == [] && [ON_BINANCE, ON_BYBIT][..1] == [ON_BINANCE];
    assert After([ON_BINANCE]) == Updated([], ON_BINANCE);
    assert After([ON_BINANCE, ON_BYBIT]) == Updated(After([ON_BINANCE]), ON_BYBIT);
    forall e
      ensures e != BINANCE ==> Lookup(After([ON_BINANCE]), (e, SPOT, SYMBOL)).None?
      ensures e == BINANCE ==> Lookup(After([ON_BINANCE]), (e, SPOT, SYMBOL)).Some?
    {
      UpdatedAt([], ON_BINANCE, (e, SPOT, SYMBOL));
    }
    UpdatedAt(After([ON_BINANCE]), ON_BYBIT, (BINANCE, SPOT, SYMBOL));
    UpdatedAt(After([ON_BINANCE]), ON_BYBIT, (BYBIT, SPOT, SYMBOL));
  }

  /** Nothing is evicted, no update is put off, and the counter reports one loss: the number that the raise used up. */
  lemma FailedBuildMiscounts()
    ensures var early := Update(After([ON_BINANCE]), TRADING, FEES, 0);
            var raises := Update(After([ON_BINANCE, ON_BYBIT]), TRADING, FEES, 0);
            var mended := Update(After([ON_BINANCE, ON_BYBIT]), TRADING, MENDED, 0);
            var c := Run(1, Connected(0, 0), [early, Deliver(true), raises, mended, Deliver(true), Rendering]);
            && c.client.missed == 1 && PutOff(c, 0) == 0 && c.failed == [2]
            && c.trail.taken == [0, 1] && Missing(c.trail.taken, 0, 1) == 0
  {
    hide Run;
    hide Step;
    hide Computed;
    hide After;
    hide Deferred;
    hide Missing;
    WhenItRaises();
    var early := Update(After([ON_BINANCE]), TRADING, FEES, 0);
    var raises := Update(After([ON_BINANCE, ON_BYBIT]), TRADING, FEES, 0);
    var mended := Update(After([ON_BINANCE, ON_BYBIT]), TRADING, MENDED, 0);
    var first := [early, Deliver(true), raises];
    assert first + [mended, Deliver(true), Rendering]
            == [early, Deliver(true), raises, mended, Deliver(true), Rendering];
    RunThree(1, Connected(0, 0), early, Deliver(true), raises);
    RunThreeMore(1, Connected(0, 0), first, mended, Deliver(true), Rendering);
    FirstMessage(early);
    FailAndMend(raises, mended);
    MissingBetween([0, 1], 0, 1);
    NothingPutOff();
  }

  lemma FailAndMend(raises: Event, mended: Event)
    requires raises.Update? && Computed(raises.cache, raises.trading, raises.fees, raises.now).Raised?
    requires mended.Update? && Computed(mended.cache, mended.trading, mended.fees, mended.now).Ok?
    ensures var told := Step(1, Step(1, Step(1, ONE_RECEIVED, raises), mended), Deliver(true));
            Step(1, told, Rendering)
            == Connection(0, 3, [], Trail([1, 3], 2, [0, 1]), [2], Client(Some(3), 1, []),
                          [Handle(1, true), Handle(3, true), Render])
  {
    hide Pushed;
    hide Computed;
    var failed := Step(1, ONE_RECEIVED, raises);
    assert failed == ONE_RECEIVED.(sequence := 2, failed := [2]);
    PushIntoEmpty(failed);
    var good := Step(1, failed, mended);
    assert good == failed.(sequence := 3, queue := [3], trail := Trail([1, 3], 1, [0]));
    DeliverTheOne(good, true);
    var told := Step(1, good, Deliver(true));
    assert told.client == Client(Some(3), 1, []);
    assert PendingTotal([], 3) == 0;
  }

  lemma NothingPutOff()
    ensures Deferred(Fresh(0), [Handle(1, true), Handle(3, true), Render]) == 0
  {
    assert [Handle(1, true), Handle(3, true), Render][..2] == [Handle(1, true), Handle(3, true)];
    assert [Handle(1, true), Handle(3, true)][..1] == [Handle(1, true)];
    assert [Handle(1, true)][..0] == [];
    hide Watched;
    assert Deferred(Fresh(0), [Handle(1, true)]) == 0;
    assert Deferred(Fresh(0), [Handle(1, true), Handle(3, true)]) == 0;
  }
}
