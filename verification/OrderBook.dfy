/** The exchange's order book: matching, resting and cancelling over the pointer structure, proved
    against the functions of `Matching`. */
module OrderBook {
  import opened Common
  import opened Ladder
  import opened PriceSlots
  import opened Rings
  import opened Pool
  import opened BookHeap
  import opened Matching
  import opened BookInvariant
  import opened Placing
  import opened OrderRings

  /** The two queues on which the matching engine sends. */
  class Outbox {
    var responses: seq<Response>
    var updates: seq<Update>

    constructor ()
      ensures responses == [] && updates == []
    {
      responses, updates := [], [];
    }

    method SendClientResponse(r: Response)
      modifies this`responses
      ensures responses == old(responses) + [r]
    {
      responses := responses + [r];
    }

    method SendMarketUpdate(u: Update)
      modifies this`updates
      ensures updates == old(updates) + [u]
    {
      updates := updates + [u];
    }
  }

  class MEOrderBook {
    const tickerId: nat
    const rings: OrderRings<OrderRef>
    const engine: Outbox
    var nextMarketOrderId: nat

    /** What belongs to this book alone. */
    ghost function Own(): set<object> {
      {this, rings} + rings.repr
    }

    ghost function Footprint(): set<object> {
      Own() + {engine}
    }

    ghost predicate Valid()
      reads Own()
    {
      && this !in rings.repr && engine !in rings.repr && rings.Valid() && Good(State())
      && rings.levelPool.store.Length == ME_MAX_PRICE_LEVELS && rings.orderPool.store.Length == ME_MAX_ORDER_IDS
    }

    ghost function State(): Book
      reads this, rings
    {
      Book(rings.Book(BUY), rings.Book(SELL), nextMarketOrderId)
    }

    constructor (ticker: nat, outbox: Outbox)
      ensures Valid() && State() == EMPTY_BOOK
      ensures tickerId == ticker && engine == outbox && fresh(Own())
    {
      hide WellFormed, OrderRings.Valid;
      var noLevel := Node(LevelData(INVALID, PRICE_INVALID, NULL), NULL, NULL);
      var noOrder := Order(OrderRef(CLIENT_ID_INVALID, ORDER_ID_INVALID), ORDER_ID_INVALID, INVALID, PRICE_INVALID,
                           QTY_INVALID, PRIORITY_INVALID);
      var levels := new MemPool<Node<LevelData>>(ME_MAX_PRICE_LEVELS, noLevel);
      var orders := new MemPool<Node<BookOrder>>(ME_MAX_ORDER_IDS, Node(noOrder, NULL, NULL));
      tickerId, engine, nextMarketOrderId := ticker, outbox, 1;
      rings := new OrderRings<OrderRef>(levels, orders);
    }

    /** Reports one fill to both parties and to the market. */
    method ReportFill(inc: BookOrder, order: BookOrder, fill: nat)
      requires fill <= inc.qty && fill <= order.qty
      modifies engine
      ensures engine.responses == old(engine.responses) + FillPair(tickerId, inc, order, fill)
      ensures engine.updates == old(engine.updates) + [TradeUpdate(tickerId, inc.side, order.price, fill)]
    {
      engine.SendClientResponse(FillResponse(tickerId, inc, Narrow(inc.oid), order.price, fill, inc.qty - fill));
      engine.SendClientResponse(FillResponse(tickerId, order, order.oid, order.price, fill, order.qty - fill));
      engine.SendMarketUpdate(TradeUpdate(tickerId, inc.side, order.price, fill));
    }

    /** Trades the incoming order `inc` against the resting order in slot `n`, the first in line on
        the other side. */
    method Match(inc: BookOrder, n: nat, ghost opp: seq<BookOrder>) returns (left: nat)
      requires rings.Valid() && engine !in rings.repr && IsTradeSide(inc.side) && inc.qty > 0
      requires opp != [] && opp == rings.Book(Opposite(inc.side)) && opp[0].side == Opposite(inc.side)
      requires rings.Queued(n) && rings.At(n) == opp[0]
      modifies rings.repr, engine
      ensures rings.Valid()
      ensures left == MatchFront(tickerId, inc, opp).leaves
      ensures engine.responses == old(engine.responses) + MatchFront(tickerId, inc, opp).responses
      ensures engine.updates == old(engine.updates) + MatchFront(tickerId, inc, opp).updates
      ensures rings.Book(Opposite(inc.side)) == MatchFront(tickerId, inc, opp).rest
      ensures rings.Book(inc.side) == old(rings.Book(inc.side))
    {
      hide OrderRings.Valid, Drop, Resize, WellFormed;
      var order := rings.Read(n);
      var fill := Min(inc.qty, order.qty);
      left := inc.qty - fill;
      FrontChanged(opp, order.qty - fill);
      TwoUpdates(tickerId, inc, order, fill, engine.updates);
      rings.SetQty(n, order.qty - fill);
      ReportFill(inc, order, fill);
      if order.qty - fill == 0 {
        engine.SendMarketUpdate(FilledUpdate(tickerId, order));
        rings.RemoveOrder(n);
      } else {
        engine.SendMarketUpdate(ReducedUpdate(tickerId, order, order.qty - fill));
      }
    }

    /** Matches `inc` as long as the first order on the other side is within its limit. */
    method CheckForMatch(inc: BookOrder) returns (leaves: nat)
      requires rings.Valid() && engine !in rings.repr && IsTradeSide(inc.side)
      requires Live(Opposite(inc.side), rings.Book(Opposite(inc.side)))
      modifies rings.repr, engine
      ensures rings.Valid()
      ensures leaves == MatchAll(tickerId, inc, old(rings.Book(Opposite(inc.side)))).leaves
      ensures engine.responses
           == old(engine.responses) + MatchAll(tickerId, inc, old(rings.Book(Opposite(inc.side)))).responses
      ensures engine.updates
           == old(engine.updates) + MatchAll(tickerId, inc, old(rings.Book(Opposite(inc.side)))).updates
      ensures rings.Book(Opposite(inc.side)) == MatchAll(tickerId, inc, old(rings.Book(Opposite(inc.side)))).rest
      ensures rings.Book(inc.side) == old(rings.Book(inc.side))
    {
      hide OrderRings.Valid, WellFormed, MatchAll, MatchFront;
      ghost var all := MatchAll(tickerId, inc, rings.Book(Opposite(inc.side)));
      ghost var rs: seq<Response>, us: seq<Update> := [], [];
      leaves := inc.qty;
      var n := rings.Front(Opposite(inc.side));
      while leaves > 0 && n != NULL
        invariant rings.Valid()
        invariant leaves <= inc.qty && Live(Opposite(inc.side), rings.Book(Opposite(inc.side)))
        invariant n == NULL <==> rings.Book(Opposite(inc.side)) == []
        invariant n != NULL ==> n >= 0 && rings.Queued(n) && rings.At(n) == rings.Book(Opposite(inc.side))[0]
        invariant Remains(tickerId, inc.(qty := leaves), rings.Book(Opposite(inc.side)), rs, us, all)
        invariant engine.responses == old(engine.responses) + rs && engine.updates == old(engine.updates) + us
        invariant rings.Book(inc.side) == old(rings.Book(inc.side))
        decreases leaves
      {
        if !Crosses(inc.side, inc.price, rings.Read(n).price) {
          break;
        }
        ghost var opp := rings.Book(Opposite(inc.side));
        ghost var one := MatchFront(tickerId, inc.(qty := leaves), opp);
        MatchStep(tickerId, inc.(qty := leaves), opp, rs, us, all);
        leaves := Match(inc.(qty := leaves), n, opp);
        rs, us := rs + one.responses, us + one.updates;
        n := rings.Front(Opposite(inc.side));
      }
      MatchEnds(tickerId, inc.(qty := leaves), rings.Book(Opposite(inc.side)), rs, us, all);
    }

    /** A new order: acknowledged, matched, and what is left of it rests. */
    method Add(ref: OrderRef, side: Side, price: int, qty: nat)
      requires Valid() && IsTradeSide(side) && Lookup(State(), ref) == None
      requires CanRest(State(), tickerId, ref, side, price, qty)
      modifies Footprint()
      ensures Valid() && State() == Matching.Add(old(State()), tickerId, ref, side, price, qty).book
      ensures engine.responses
           == old(engine.responses) + Matching.Add(old(State()), tickerId, ref, side, price, qty).responses
      ensures engine.updates
           == old(engine.updates) + Matching.Add(old(State()), tickerId, ref, side, price, qty).updates
    {
      hide OrderRings.Valid, WellFormed, Good, MatchAll, Enqueue, NextPriority, SlotFits, Unnamed;
      hide PriceFree, HasRoom, LastAtPrice;
      ghost var before := State();
      AddKeepsGood(before, tickerId, ref, side, price, qty);
      var oid := nextMarketOrderId;
      nextMarketOrderId := nextMarketOrderId + 1;
      var inc := Order(ref, oid, side, price, qty, 0);
      engine.SendClientResponse(AcceptedResponse(tickerId, inc));
      SideIsLive(before, side);
      var leaves := CheckForMatch(inc);
      if leaves > 0 {
        RestFits(before, tickerId, inc);
        var priority := rings.GetNextPriority(price, side);
        var order := inc.(qty := leaves, priority := priority);
        NextIsLast(before, order);
        rings.AddOrder(order);
        engine.SendMarketUpdate(AddedUpdate(tickerId, order));
      }
    }

    /** A cancel: the order leaves the book if it is there, and is refused otherwise. */
    method Cancel(ref: OrderRef)
      requires Valid()
      modifies Footprint()
      ensures Valid() && State() == Matching.Cancel(old(State()), tickerId, ref).book
      ensures engine.responses == old(engine.responses) + Matching.Cancel(old(State()), tickerId, ref).responses
      ensures engine.updates == old(engine.updates) + Matching.Cancel(old(State()), tickerId, ref).updates
    {
      hide OrderRings.Valid, WellFormed, Good, Drop, Find, Unnamed, Lookup;
      ghost var before := State();
      CancelKeepsGood(before, tickerId, ref);
      var n := rings.Find(ref);
      if n == NULL {
        NotFound(before, ref);
        engine.SendClientResponse(RejectedResponse(tickerId, ref));
      } else {
        var order := rings.Read(n);
        Found(before, order);
        rings.RemoveOrder(n);
        engine.SendMarketUpdate(CanceledUpdate(tickerId, order));
        engine.SendClientResponse(CanceledResponse(tickerId, order));
      }
    }
  }

  /** What resizing and then dropping the first order does to a side. */
  lemma FrontChanged(s: seq<BookOrder>, qty: nat)
    requires s != []
    ensures Resize(s, s[0].key, qty) == [s[0].(qty := qty)] + s[1..]
    ensures Drop(Resize(s, s[0].key, qty), s[0].key) == [] + s[1..]
  {
  }

  lemma TwoUpdates(ticker: nat, inc: BookOrder, order: BookOrder, fill: nat, sent: seq<Update>)
    requires fill <= order.qty
    ensures var last := if fill == order.qty then FilledUpdate(ticker, order)
                        else ReducedUpdate(ticker, order, order.qty - fill);
            sent + FillUpdates(ticker, inc, order, fill)
            == sent + [TradeUpdate(ticker, inc.side, order.price, fill)] + [last]
  {
  }

  /** After sending `rs` and `us`, matching what is left of the incoming order gives the rest of `all`. */
  ghost predicate Remains(ticker: nat, inc: BookOrder, opp: seq<BookOrder>, rs: seq<Response>, us: seq<Update>,
          all: Match) {
    var m := MatchAll(ticker, inc, opp);
    all.rest == m.rest && all.leaves == m.leaves && all.responses == rs + m.responses && all.updates == us + m.updates
  }

  lemma MatchStep(ticker: nat, inc: BookOrder, opp: seq<BookOrder>, rs: seq<Response>, us: seq<Update>, all: Match)
    requires inc.qty > 0 && opp != [] && Crosses(inc.side, inc.price, opp[0].price)
    requires Live(Opposite(inc.side), opp) && Remains(ticker, inc, opp, rs, us, all)
    ensures var one := MatchFront(ticker, inc, opp);
            && one.leaves < inc.qty && Live(Opposite(inc.side), one.rest)
            && Remains(ticker, inc.(qty := one.leaves), one.rest, rs + one.responses, us + one.updates, all)
  {
    hide MatchAll;
    MatchRound(ticker, inc, opp);
  }

  lemma MatchEnds(ticker: nat, inc: BookOrder, opp: seq<BookOrder>, rs: seq<Response>, us: seq<Update>, all: Match)
    requires inc.qty == 0 || opp == [] || !Crosses(inc.side, inc.price, opp[0].price)
    requires Remains(ticker, inc, opp, rs, us, all)
    ensures all == Match(opp, inc.qty, rs, us)
  {
  }

  lemma SideIsLive(b: Book, side: Side)
    requires Good(b) && IsTradeSide(side)
    ensures Live(Opposite(side), b.On(Opposite(side)))
  {
  }

  lemma NotFound(b: Book, ref: OrderRef)
    requires Unnamed(b.bids, ref) && Unnamed(b.asks, ref)
    ensures Lookup(b, ref) == None
  {
  }

  lemma Found(b: Book, o: BookOrder)
    requires Good(b) && IsTradeSide(o.side) && o in b.On(o.side)
    ensures Lookup(b, o.key) == Some(o)
  {
    GoodFromEither(b, o.side);
    var k :| 0 <= k < |b.On(o.side)| && b.On(o.side)[k] == o;
    FindAt(b.On(o.side), k);
    forall j | 0 <= j < |b.On(Opposite(o.side))|
      ensures b.On(Opposite(o.side))[j].key != o.key
    {
      assert Clear(o.side, b.On(o.side)[k], b.On(Opposite(o.side))[j]);
    }
  }

  lemma NextIsLast(b: Book, o: BookOrder)
    requires Good(b) && IsTradeSide(o.side) && o.priority == NextPriority(b.On(o.side), o.price)
    ensures LastAtPrice(b.On(o.side), o)
  {
    NextPriorityTops(b.On(o.side), o.side, o.price);
  }
}
