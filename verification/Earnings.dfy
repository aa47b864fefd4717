/** The client's positions and profit over whole runs against the exchange: they follow from the fills it
    has heard of and the prices it has seen. */
module Earnings {
  import opened Common
  import Ladder
  import opened Matching
  import opened BookInvariant
  import opened Positions
  import opened ClientOrders
  import opened ClientEffect
  import opened Agreement
  import opened Protocol
  import opened Accounts

  /** What one event tells the client. */
  ghost function NewsIn(client: nat, w: World, e: Event): seq<News> {
    match e
    case Hear =>
      if w.responses != [] && w.responses[0].ref.client == client && w.responses[0].ticker < ME_MAX_TICKERS
      then [Told(w.responses[0])] else []
    case Quoted(t, bid, ask) => if t < ME_MAX_TICKERS then [Priced(t, bid, ask)] else []
    case _ => []
  }

  /** What the client has been told over a run. */
  ghost function NewsOf(client: nat, cfgs: seq<RiskCfg>, es: seq<Event>): seq<News>
    requires AllSmall(cfgs) && AllSensible(es)
    decreases |es|
  {
    if es == [] then []
    else
      var before := es[..|es| - 1];
      NewsOf(client, cfgs, before) + NewsIn(client, Run(client, cfgs, before), es[|es| - 1])
  }

  // ----- what reports look like -----

  ghost predicate Sided(rs: seq<Response>) {
    forall i :: 0 <= i < |rs| && rs[i].kind == FILLED ==> IsTradeSide(rs[i].side)
  }

  lemma {:induction false} MatchIsSided(t: nat, inc: BookOrder, opp: seq<BookOrder>)
    requires IsTradeSide(inc.side) && Ladder.Live(Opposite(inc.side), opp)
    ensures Sided(MatchAll(t, inc, opp).responses)
    decreases |opp|
  {
    hide MatchAll, FillUpdates;
    if !Trades(inc, opp) {
      MatchStops(t, inc, opp);
    } else if inc.qty >= opp[0].qty {
      MatchGoesOn(t, inc, opp);
      MatchIsSided(t, inc.(qty := inc.qty - opp[0].qty), opp[1..]);
    } else {
      MatchEndsInside(t, inc, opp);
    }
  }

  lemma ProcessIsSided(b: Book, r: Request)
    requires Good(b) && Admissible(b, r)
    ensures Sided(Process(b, r).responses)
  {
    hide MatchAll, Lookup, Good;
    if r.kind == NEW {
      GoodFromEither(b, r.side);
      MatchIsSided(r.ticker, Incoming(b, r.ref, r.side, r.price, r.qty), b.On(Opposite(r.side)));
    }
  }

  // ----- the invariant -----

  /** No order in a slot is larger than the client's limit. */
  ghost predicate SizesKept(w: World, cfgs: seq<RiskCfg>)
    requires Shaped(w) && |cfgs| == ME_MAX_TICKERS
  {
    forall t: nat, side: Side :: t < ME_MAX_TICKERS && IsTradeSide(side) ==>
      OpenQty(Slot(w, t, side)) <= cfgs[t].maxOrderSize
  }

  ghost predicate NewsFits(ns: seq<News>) {
    Addressed(ns) && forall t: nat :: t < ME_MAX_TICKERS ==> AllFillsFit(ns, t)
  }

  /** The positions are what the news make of them. */
  ghost predicate Tracks(w: World, cfgs: seq<RiskCfg>, ns: seq<News>)
    requires |cfgs| == ME_MAX_TICKERS
  {
    && Shaped(w) && SizesKept(w, cfgs) && Sided(w.responses)
    && NewsFits(ns) && w.desk.positions == AfterAllNews(ns).positions
  }

  // ----- the client acts -----

  lemma MoveKeepsSized(client: nat, cfgs: seq<RiskCfg>, w: World, e: Event)
    requires AllSmall(cfgs) && Shaped(w) && SizesKept(w, cfgs) && e.Move? && Sensible(e)
    ensures var w' := Protocol.Step(client, cfgs, w, e);
            Shaped(w') && SizesKept(w', cfgs) && w'.desk.positions == w.desk.positions && w'.responses == w.responses
  {
    hide MoveOrder;
    var w' := Protocol.Step(client, cfgs, w, e);
    MoveSends(client, cfgs[e.ticker], w.desk, e.ticker, e.side, e.price, e.qty);
    forall t: nat, side: Side | t < ME_MAX_TICKERS && IsTradeSide(side)
      ensures OpenQty(Slot(w', t, side)) <= cfgs[t].maxOrderSize
    {
      assert OpenQty(Slot(w, t, side)) <= cfgs[t].maxOrderSize;
      if t != e.ticker || side != e.side {
        OtherSlot(t, side, e.ticker, e.side);
      }
    }
  }

  // ----- the client hears -----

  /** What the client is told of a fill is for an order in a slot, and for no more than that order. */
  lemma FillIsForASlot(client: nat, w: World, r: Response, rest: seq<Response>)
    requires Shaped(w) && AgreeAll(client, w) && w.responses == [r] + rest && r.ref.client == client
    requires r.ticker < ME_MAX_TICKERS && IsTradeSide(r.side) && r.kind == FILLED
    ensures var o := Slot(w, r.ticker, r.side); !o.Idle() && r.execQty + r.leavesQty == o.qty && r.execQty > 0
  {
    hide Agree;
    var t, side := r.ticker, r.side;
    assert AgreeAt(client, w, t, side);
    MineAppend([r], rest, client, t, side);
    MineOne(r, client, t, side);
    HearResponse(client, Slot(w, t, side), Asked(w.requests, t, side), Mine(w.responses, client, t, side),
                 Owned(w.books[t].On(side), client));
  }

  lemma HearKeepsSized(client: nat, cfgs: seq<RiskCfg>, w: World, r: Response)
    requires AllSmall(cfgs) && Shaped(w) && SizesKept(w, cfgs) && r.ticker < ME_MAX_TICKERS
    requires r.kind == FILLED ==> IsTradeSide(r.side) && r.leavesQty <= Slot(w, r.ticker, r.side).qty
    requires r.kind == FILLED ==> !Slot(w, r.ticker, r.side).Idle()
    requires IsTradeSide(r.side) && r.kind == ACCEPTED ==> !Slot(w, r.ticker, r.side).Idle()
    ensures var w' := w.(desk := OnOrderUpdate(w.desk, r)); Shaped(w') && SizesKept(w', cfgs)
  {
    hide AddFill, OnOrderUpdate;
    StaysShaped(w.desk, r);
    var w' := w.(desk := OnOrderUpdate(w.desk, r));
    forall t: nat, side: Side | t < ME_MAX_TICKERS && IsTradeSide(side)
      ensures OpenQty(Slot(w', t, side)) <= cfgs[t].maxOrderSize
    {
      assert OpenQty(Slot(w, t, side)) <= cfgs[t].maxOrderSize;
      HearActs(w.desk, r, t, side);
    }
  }

  lemma AcceptedIsForASlot(client: nat, w: World, r: Response, rest: seq<Response>)
    requires Shaped(w) && AgreeAll(client, w) && w.responses == [r] + rest && r.ref.client == client
    requires r.ticker < ME_MAX_TICKERS && IsTradeSide(r.side) && r.kind == ACCEPTED
    ensures !Slot(w, r.ticker, r.side).Idle()
  {
    hide Agree;
    var t, side := r.ticker, r.side;
    assert AgreeAt(client, w, t, side);
    MineAppend([r], rest, client, t, side);
    MineOne(r, client, t, side);
    HearResponse(client, Slot(w, t, side), Asked(w.requests, t, side), Mine(w.responses, client, t, side),
                 Owned(w.books[t].On(side), client));
  }

  lemma NetIs(p: Position, ns: seq<News>, t: nat)
    requires BooksInOrder(p, ns, t)
    ensures p.position == Net(ns, t)
  {
  }

  lemma OneMoreFits(ns: seq<News>, n: News, t: nat)
    requires AllFillsFit(ns, t)
    requires IsFill(n, t) ==>
               && IsTradeSide(n.r.side) && 0 < n.r.execQty < 0x8000_0000
               && -0x8000_0000 < Net(ns + [n], t) < 0x8000_0000
    ensures AllFillsFit(ns + [n], t)
  {
    hide Net;
    var ns' := ns + [n];
    forall i | 0 <= i < |ns'| && IsFill(ns'[i], t)
      ensures IsTradeSide(ns'[i].r.side) && 0 < ns'[i].r.execQty < 0x8000_0000
      ensures -0x8000_0000 < Net(ns'[..i + 1], t) < 0x8000_0000
    {
      if i < |ns| {
        assert ns'[i] == ns[i] && ns'[..i + 1] == ns[..i + 1];
      } else {
        assert ns'[..i + 1] == ns';
      }
    }
  }

  /** The next fill fits: it is no larger than the order, and the order was within the limits. */
  lemma NextFillFits(client: nat, cfgs: seq<RiskCfg>, w: World, ns: seq<News>, r: Response, rest: seq<Response>)
    requires AllSmall(cfgs) && Protocol.Inv(client, cfgs, w) && Tracks(w, cfgs, ns)
    requires w.responses == [r] + rest && r.ref.client == client && r.ticker < ME_MAX_TICKERS
    ensures NewsFits(ns + [Told(r)])
  {
    hide Agree, AfterAllNews, PlacedAll, GoodBooks, BooksInOrder, AllFillsFit;
    var ns' := ns + [Told(r)];
    forall t: nat | t < ME_MAX_TICKERS
      ensures AllFillsFit(ns', t)
    {
      assert AllFillsFit(ns, t);
      if r.kind == FILLED && r.ticker == t {
        assert w.responses[0] == r;
        FillIsForASlot(client, w, r, rest);
        assert OpenQty(Slot(w, t, r.side)) <= cfgs[t].maxOrderSize;
        assert WithinLimit(w, cfgs[t], t) && SmallLimits(cfgs[t]);
        PositionsAreInOrder(ns, t);
        NetIs(AfterAllNews(ns).positions[t], ns, t);
        OneMoreFill(ns, t, r);
      }
      OneMoreFits(ns, Told(r), t);
    }
  }

  /** The positions only depend on the positions. */
  lemma SamePositions(d: Desk, d': Desk, n: News)
    requires d.Sized() && d'.Sized() && d.positions == d'.positions
    requires if n.Told? then n.r.ticker < ME_MAX_TICKERS else n.ticker < ME_MAX_TICKERS
    ensures AfterNews(d, n).positions == AfterNews(d', n).positions
  {
    hide AddFill, UpdateBBO, UpdateSlot;
  }

  lemma OneMoreNews(ns: seq<News>, n: News)
    requires Addressed(ns) && if n.Told? then n.r.ticker < ME_MAX_TICKERS else n.ticker < ME_MAX_TICKERS
    ensures Addressed(ns + [n]) && AfterAllNews(ns + [n]) == AfterNews(AfterAllNews(ns), n)
  {
    assert (ns + [n])[..|ns|] == ns;
  }

  lemma InvHolds(client: nat, cfgs: seq<RiskCfg>, w: World)
    requires |cfgs| == ME_MAX_TICKERS && Protocol.Inv(client, cfgs, w)
    ensures Shaped(w) && AgreeAll(client, w) && GoodBooks(w)
  {
  }

  lemma NewsFitsIsAddressed(ns: seq<News>)
    requires NewsFits(ns)
    ensures Addressed(ns)
  {
  }

  lemma SidedTail(rs: seq<Response>)
    requires Sided(rs) && rs != []
    ensures Sided(rs[1..]) && (rs[0].kind == FILLED ==> IsTradeSide(rs[0].side))
  {
  }

  lemma SizedElsewhere(w: World, w': World, cfgs: seq<RiskCfg>)
    requires |cfgs| == ME_MAX_TICKERS && Shaped(w) && Shaped(w') && SizesKept(w, cfgs) && w'.desk.slots == w.desk.slots
    ensures SizesKept(w', cfgs)
  {
    forall t: nat, side: Side | t < ME_MAX_TICKERS && IsTradeSide(side)
      ensures OpenQty(Slot(w', t, side)) <= cfgs[t].maxOrderSize
    {
      assert OpenQty(Slot(w, t, side)) <= cfgs[t].maxOrderSize;
    }
  }

  lemma HearTracks(client: nat, cfgs: seq<RiskCfg>, w: World, ns: seq<News>)
    requires AllSmall(cfgs) && Protocol.Inv(client, cfgs, w) && Tracks(w, cfgs, ns)
    ensures Tracks(Protocol.Step(client, cfgs, w, Hear), cfgs, ns + NewsIn(client, w, Hear))
  {
    hide Inv, AgreeAll, AfterAllNews, OnOrderUpdate, SizesKept, NewsFits;
    InvHolds(client, cfgs, w);
    if w.responses == [] {
      assert ns + [] == ns;
    } else {
      var r, rest := w.responses[0], w.responses[1..];
      assert w.responses == [r] + rest;
      SidedTail(w.responses);
      if r.ref.client == client && r.ticker < ME_MAX_TICKERS {
        NextFillFits(client, cfgs, w, ns, r, rest);
        NewsFitsIsAddressed(ns);
        OneMoreNews(ns, Told(r));
        SamePositions(w.desk, AfterAllNews(ns), Told(r));
        StaysShaped(w.desk, r);
        if r.kind == FILLED {
          FillIsForASlot(client, w, r, rest);
        } else if r.kind == ACCEPTED && IsTradeSide(r.side) {
          AcceptedIsForASlot(client, w, r, rest);
        }
        HearKeepsSized(client, cfgs, w, r);
        SizedElsewhere(w.(desk := OnOrderUpdate(w.desk, r)), Protocol.Step(client, cfgs, w, Hear), cfgs);
      } else {
        assert ns + [] == ns;
        SizedElsewhere(w, Protocol.Step(client, cfgs, w, Hear), cfgs);
      }
    }
  }

  // ----- the rest -----

  lemma ServedTracks(w: World, cfgs: seq<RiskCfg>, ns: seq<News>, r: Request, w': World)
    requires |cfgs| == ME_MAX_TICKERS && Tracks(w, cfgs, ns) && r.ticker < ME_MAX_TICKERS
    requires Good(w.books[r.ticker]) && Admissible(w.books[r.ticker], r)
    requires w'.desk == w.desk && w'.owners == w.owners && |w'.books| == |w.books|
    requires w'.responses == w.responses + Process(w.books[r.ticker], r).responses
    ensures Tracks(w', cfgs, ns)
  {
    hide SizesKept, NewsFits, Process, Good, Admissible;
    ProcessIsSided(w.books[r.ticker], r);
    SizedElsewhere(w, w', cfgs);
  }

  lemma QuotedTracks(client: nat, cfgs: seq<RiskCfg>, w: World, ns: seq<News>, t: nat, bid: int, ask: int)
    requires AllSmall(cfgs) && Tracks(w, cfgs, ns) && t < ME_MAX_TICKERS
    ensures Tracks(w.(desk := OnQuote(w.desk, t, bid, ask)), cfgs, ns + [Priced(t, bid, ask)])
  {
    hide AfterAllNews, UpdateBBO, AllFillsFit;
    var n := Priced(t, bid, ask);
    OneMoreNews(ns, n);
    SamePositions(w.desk, AfterAllNews(ns), n);
    SizedElsewhere(w, w.(desk := OnQuote(w.desk, t, bid, ask)), cfgs);
    forall i: nat | i < ME_MAX_TICKERS
      ensures AllFillsFit(ns + [n], i)
    {
      OneMoreFits(ns, n, i);
    }
  }

  lemma OwnIsGood(client: nat, cfgs: seq<RiskCfg>, w: World, r: Request)
    requires |cfgs| == ME_MAX_TICKERS && Protocol.Inv(client, cfgs, w) && w.requests != [] && r == w.requests[0]
    ensures r.ticker < ME_MAX_TICKERS && Good(w.books[r.ticker]) && Admissible(w.books[r.ticker], r)
  {
    hide AgreeAll, PlacedAll, Admissible;
    OwnIsAdmissible(client, w, r);
    assert RequestPlaced(client, w, r);
  }

  lemma StepTracks(client: nat, cfgs: seq<RiskCfg>, w: World, e: Event, ns: seq<News>)
    requires AllSmall(cfgs) && Protocol.Inv(client, cfgs, w) && Sensible(e) && Tracks(w, cfgs, ns)
    ensures Tracks(Protocol.Step(client, cfgs, w, e), cfgs, ns + NewsIn(client, w, e))
  {
    hide Inv, AgreeAll, AfterAllNews, SizesKept, NewsFits, Process, Good, Admissible, OnOrderUpdate, MoveOrder;
    InvHolds(client, cfgs, w);
    assert ns + [] == ns;
    match e
    case Move(_, _, _, _) => MoveKeepsSized(client, cfgs, w, e);
    case Hear => HearTracks(client, cfgs, w, ns);
    case Serve =>
      if w.requests != [] {
        var r := w.requests[0];
        ServeKeeps(client, cfgs, w, r, true);
        OwnIsGood(client, cfgs, w, r);
        ServedTracks(w, cfgs, ns, r, Protocol.Step(client, cfgs, w, e));
      }
    case Other(r) =>
      if r.ref.client != client && r.ticker < ME_MAX_TICKERS && Admissible(w.books[r.ticker], r) {
        ServedTracks(w, cfgs, ns, r, Protocol.Step(client, cfgs, w, e));
      }
    case Quoted(t, bid, ask) =>
      if t < ME_MAX_TICKERS {
        QuotedTracks(client, cfgs, w, ns, t, bid, ask);
      }
  }

  lemma StartTracks(cfgs: seq<RiskCfg>)
    requires |cfgs| == ME_MAX_TICKERS
    ensures Tracks(Start(), cfgs, [])
  {
    forall t: nat, side: Side | t < ME_MAX_TICKERS && IsTradeSide(side)
      ensures OpenQty(Slot(Start(), t, side)) <= cfgs[t].maxOrderSize
    {
      assert Slot(Start(), t, side) == NO_ORDER;
    }
  }

  lemma {:induction false} RunTracks(client: nat, cfgs: seq<RiskCfg>, es: seq<Event>)
    requires AllSmall(cfgs) && AllSensible(es)
    ensures Tracks(Run(client, cfgs, es), cfgs, NewsOf(client, cfgs, es))
    decreases |es|
  {
    hide Inv, Tracks, Protocol.Step, NewsIn;
    if es == [] {
      StartTracks(cfgs);
    } else {
      var before := es[..|es| - 1];
      RunTracks(client, cfgs, before);
      RunKeeps(client, cfgs, before);
      InvIsShaped(client, cfgs, Run(client, cfgs, before));
      StepTracks(client, cfgs, Run(client, cfgs, before), es[|es| - 1], NewsOf(client, cfgs, before));
    }
  }

  /** Over every run, for every instrument: the client's position is what it heard that it bought less what it
      heard that it sold; its total profit is the money it received less the money it paid, plus the position
      at the latest price it knows; and whenever the position is flat all of that profit is realised. That no
      fill ever takes a position out of the 32-bit range needs no assumption: the limits see to it. */
  lemma EarningsOverRuns(client: nat, cfgs: seq<RiskCfg>, es: seq<Event>, t: nat)
    requires AllSmall(cfgs) && AllSensible(es) && t < ME_MAX_TICKERS
    ensures Shaped(Run(client, cfgs, es))
    ensures BooksInOrder(Run(client, cfgs, es).desk.positions[t], NewsOf(client, cfgs, es), t)
  {
    hide Run, NewsOf, BooksInOrder, AllFillsFit, AfterAllNews, SizesKept;
    RunTracks(client, cfgs, es);
    PositionsAreInOrder(NewsOf(client, cfgs, es), t);
  }
}
