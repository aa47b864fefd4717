/** The trading client's copy of one instrument's order book, built from market updates, with its
    cached best bid and offer. */
module ReplicaBook {
  import opened Common
  import opened Ladder
  import opened PriceSlots
  import opened Rings
  import opened Pool
  import opened BookHeap
  import opened Replica
  import opened UpdateStream
  import opened TopOfBook
  import opened Bbo
  import opened Fits
  import opened OrderRings

  class MarketOrderBook {
    const tickerId: nat
    const rings: OrderRings<nat>
    var bbo: BBO

    ghost predicate Valid()
      reads this, rings, rings.repr
    {
      && this !in rings.repr && rings.Valid() && GoodView(State())
      && bbo.Matches(State(), BUY) && bbo.Matches(State(), SELL)
      && rings.levelPool.store.Length == rings.orderPool.store.Length == ME_MAX_ORDER_IDS
    }

    ghost function State(): View
      reads rings
    {
      View(rings.Book(BUY), rings.Book(SELL))
    }

    constructor (ticker: nat)
      ensures Valid() && State() == EMPTY_VIEW && bbo == NO_BBO && tickerId == ticker
      ensures fresh(rings) && fresh(rings.repr)
    {
      hide WellFormed, OrderRings.Valid;
      var noLevel := Node(LevelData(INVALID, PRICE_INVALID, NULL), NULL, NULL);
      var noOrder := Order(ORDER_ID_INVALID, ORDER_ID_INVALID, INVALID, PRICE_INVALID, QTY_INVALID, PRIORITY_INVALID);
      var levels := new MemPool<Node<LevelData>>(ME_MAX_ORDER_IDS, noLevel);
      var orders := new MemPool<Node<SeenOrder>>(ME_MAX_ORDER_IDS, Node(noOrder, NULL, NULL));
      tickerId, bbo := ticker, NO_BBO;
      rings := new OrderRings<nat>(levels, orders);
    }

    /** Whether an update may change the top of a side, judged before it is applied. */
    method IsTouched(u: Update, side: Side) returns (r: bool)
      requires Valid() && IsTradeSide(side)
      ensures r == Touches(State(), u, side)
    {
      hide WellFormed, OrderRings.Valid;
      var n := rings.Front(side);
      // Repair: market_order_book.cpp:21-24 answers no for an empty side and for CLEAR.
      r := u.kind == CLEAR || (u.side == side && (n == NULL || !Better(side, rings.Read(n).price, u.price)));
    }

    method UpdateBBO(updateBid: bool, updateAsk: bool)
      requires rings.Valid() && this !in rings.repr
      modifies this`bbo
      ensures bbo == Refreshed(old(bbo), State(), updateBid, updateAsk)
      ensures updateBid && Sorted(BUY, State().bids) ==> IsTop(BUY, State().bids, bbo.bidPrice, bbo.bidQty)
      ensures updateAsk && Sorted(SELL, State().asks) ==> IsTop(SELL, State().asks, bbo.askPrice, bbo.askQty)
    {
      hide WellFormed, OrderRings.Valid, TopPrice, TopQty, IsTop;
      if updateBid {
        var price, qty := rings.TopLevel(BUY);
        bbo := bbo.(bidPrice := price, bidQty := qty);
        if Sorted(BUY, State().bids) {
          TopIs(BUY, State().bids, price, qty);
        }
      }
      if updateAsk {
        var price, qty := rings.TopLevel(SELL);
        bbo := bbo.(askPrice := price, askQty := qty);
        if Sorted(SELL, State().asks) {
          TopIs(SELL, State().asks, price, qty);
        }
      }
    }

    /** Applies one market update. */
    method OnMarketUpdate(u: Update)
      requires Valid() && u.ticker == tickerId && Applicable(State(), u) && Fitting(State(), u)
      modifies this`bbo, rings.repr
      ensures Valid() && State() == Apply(tickerId, old(State()), u)
      ensures bbo == Next(tickerId, old(bbo), old(State()), u)
    {
      hide WellFormed, OrderRings.Valid, GoodView, SlotFits, HasRoom, Unnamed, LastAtPrice, Enqueue, Drop;
      hide Resize, IsTop, Sorted, Live;
      ghost var before := State();
      var bid := IsTouched(u, BUY);
      var ask := IsTouched(u, SELL);
      CacheStaysCoherent(tickerId, bbo, before, u, BUY);
      CacheStaysCoherent(tickerId, bbo, before, u, SELL);
      ApplicableKeepsGood(tickerId, before, u);
      match u.kind {
        case ADD =>
          AnnouncedFits(before, u);
          RoomInEqualPools(before.On(u.side), before.On(Opposite(u.side)), u.price, ME_MAX_ORDER_IDS);
          rings.AddOrder(Announced(u));
        case MODIFY =>
          ghost var k := NamedOrder(tickerId, before, u);
          var n := rings.Find(u.oid);
          OnlyNamed(before, u, k, rings.At(n));
          rings.SetQty(n, u.qty);
        case REMOVE =>
          ghost var k := NamedOrder(tickerId, before, u);
          var n := rings.Find(u.oid);
          OnlyNamed(before, u, k, rings.At(n));
          rings.RemoveOrder(n);
        case TRADE => return;
        case CLEAR => rings.Clear();
        case SNAPSHOT_START =>
        case SNAPSHOT_END =>
      }
      UpdateBBO(bid, ask);
    }

    /** Applies the updates of a stream that are for this instrument, as the trade engine hands them out. */
    method Follow(us: seq<Update>)
      requires Valid() && ApplicableFrom(tickerId, State(), us) && FittingFrom(tickerId, State(), us)
      modifies this`bbo, rings.repr
      ensures Valid() && State() == ApplyAll(tickerId, old(State()), us)
    {
      hide OrderRings.Valid, GoodView, ApplicableFrom, FittingFrom, Applicable, Fitting, Apply;
      for i := 0 to |us|
        invariant Valid() && State() == ApplyAll(tickerId, old(State()), us[..i])
      {
        assert us[..i + 1][..i] == us[..i];
        if us[i].ticker == tickerId {
          NextFits(tickerId, old(State()), us, i);
          OnMarketUpdate(us[i]);
        } else {
          OtherUnmoved(tickerId, State(), us[i]);
        }
      }
      assert us[..|us|] == us;
    }
  }

  /** What can be applied from the start can be applied where its turn comes. */
  lemma {:induction false} NextFits(t: nat, v: View, us: seq<Update>, i: nat)
    requires ApplicableFrom(t, v, us) && FittingFrom(t, v, us) && i < |us| && us[i].ticker == t
    ensures Applicable(ApplyAll(t, v, us[..i]), us[i]) && Fitting(ApplyAll(t, v, us[..i]), us[i])
    decreases |us|
  {
    hide Applicable, Fitting;
    if i < |us| - 1 {
      NextFits(t, v, us[..|us| - 1], i);
      assert us[..|us| - 1][..i] == us[..i];
    }
  }

  lemma AnnouncedFits(v: View, u: Update)
    requires GoodView(v) && u.kind == ADD && Legal(v, u)
    ensures Unnamed(v.bids, u.oid) && Unnamed(v.asks, u.oid) && IsTradeSide(u.side)
    ensures LastAtPrice(v.On(u.side), Announced(u))
  {
  }

  /** The order an update names, and what the update does to both sides. */
  lemma NamedOrder(t: nat, v: View, u: Update) returns (k: nat)
    requires GoodView(v) && u.ticker == t && (u.kind == MODIFY || u.kind == REMOVE) && Legal(v, u)
    ensures Names(v, u, k)
    ensures u.kind == REMOVE ==> Apply(t, v, u) == v.With(u.side, Drop(v.On(u.side), u.oid))
    ensures u.kind == MODIFY ==> Apply(t, v, u) == v.With(u.side, Resize(v.On(u.side), u.oid, u.qty))
    ensures !Unnamed(v.bids, u.oid) || !Unnamed(v.asks, u.oid)
  {
    k :| Names(v, u, k);
    LegalActs(t, v, u, k);
    assert v.On(u.side)[k].key == u.oid;
  }

  lemma OnlyNamed(v: View, u: Update, k: nat, o: SeenOrder)
    requires GoodView(v) && Names(v, u, k) && IsTradeSide(o.side) && o in v.On(o.side) && o.key == u.oid
    ensures o.side == u.side
  {
    var j :| 0 <= j < |v.On(o.side)| && v.On(o.side)[j] == o;
    assert v.On(u.side)[k].oid == v.On(o.side)[j].oid;
  }
}
