/** What a client's positions say about what it has heard: quantities and money of the fills as the
    responses report them, and the latest price. */
module Accounts {
  import opened Common
  import opened Positions
  import opened ClientOrders

  /** What reaches the trade engine. */
  datatype News = Told(r: Response) | Priced(ticker: nat, bid: int, ask: int)

  /** News of a fill on instrument `t`. */
  predicate IsFill(n: News, t: nat) {
    n.Told? && n.r.kind == FILLED && n.r.ticker == t
  }

  /** Bought less sold. */
  function Net(ns: seq<News>, t: nat): int
    decreases |ns|
  {
    if ns == [] then 0
    else
      var before, n := Net(ns[..|ns| - 1], t), ns[|ns| - 1];
      if !IsFill(n, t) then before else if n.r.side == BUY then before + n.r.execQty else before - n.r.execQty
  }

  /** Received for what was sold, less paid for what was bought. */
  function Money(ns: seq<News>, t: nat): real
    decreases |ns|
  {
    if ns == [] then 0.0
    else
      var before, n := Money(ns[..|ns| - 1], t), ns[|ns| - 1];
      if !IsFill(n, t) then before
      else if n.r.side == BUY then before - n.r.price as real * n.r.execQty as real
      else before + n.r.price as real * n.r.execQty as real
  }

  /** Everything traded. */
  function Turnover(ns: seq<News>, t: nat): nat
    decreases |ns|
  {
    if ns == [] then 0
    else Turnover(ns[..|ns| - 1], t) + (if IsFill(ns[|ns| - 1], t) then ns[|ns| - 1].r.execQty else 0)
  }

  /** The latest price: that of a fill, or half way between the best bid and the best offer. */
  function Mark(ns: seq<News>, t: nat): real
    decreases |ns|
  {
    if ns == [] then 0.0
    else
      var n := ns[|ns| - 1];
      if IsFill(n, t) then n.r.price as real
      else if n.Priced? && n.ticker == t && n.bid != PRICE_INVALID && n.ask != PRICE_INVALID
      then (n.bid + n.ask) as real / 2.0
      else Mark(ns[..|ns| - 1], t)
  }

  /** Each fill trades something and leaves the position within 32 bits. */
  ghost predicate AllFillsFit(ns: seq<News>, t: nat) {
    forall i :: 0 <= i < |ns| && IsFill(ns[i], t) ==>
      && IsTradeSide(ns[i].r.side) && 0 < ns[i].r.execQty < 0x8000_0000
      && -0x8000_0000 < Net(ns[..i + 1], t) < 0x8000_0000
  }

  ghost predicate Addressed(ns: seq<News>) {
    forall i :: 0 <= i < |ns| ==> if ns[i].Told? then ns[i].r.ticker < ME_MAX_TICKERS else ns[i].ticker < ME_MAX_TICKERS
  }

  /** The client after some news. */
  function AfterNews(d: Desk, n: News): (d': Desk)
    requires d.Sized() && if n.Told? then n.r.ticker < ME_MAX_TICKERS else n.ticker < ME_MAX_TICKERS
    ensures d'.Sized()
  {
    match n
    case Told(r) => OnOrderUpdate(d, r)
    case Priced(t, bid, ask) => OnQuote(d, t, bid, ask)
  }

  function AfterAllNews(ns: seq<News>): (d: Desk)
    requires Addressed(ns)
    ensures d.Sized()
    decreases |ns|
  {
    if ns == [] then NewDesk() else AfterNews(AfterAllNews(ns[..|ns| - 1]), ns[|ns| - 1])
  }

  /** The books of instrument `t` are in order. */
  ghost predicate BooksInOrder(p: Position, ns: seq<News>, t: nat) {
    && p.position == Net(ns, t)
    && p.volume == Turnover(ns, t) % 0x1_0000_0000
    && p.totalPnl == Money(ns, t) + Net(ns, t) as real * Mark(ns, t)
    && (Net(ns, t) == 0 ==> p.realPnl == Money(ns, t) && p.unrealPnl == 0.0)
  }

  // ----- one piece of news -----

  lemma NewsElsewhere(d: Desk, n: News, t: nat)
    requires d.Sized() && t < ME_MAX_TICKERS
    requires if n.Told? then n.r.ticker < ME_MAX_TICKERS else n.ticker < ME_MAX_TICKERS
    requires !IsFill(n, t) && !(n.Priced? && n.ticker == t)
    ensures AfterNews(d, n).positions[t] == d.positions[t]
  {
  }

  /** What one more fill adds. */
  lemma OneMoreFill(ns: seq<News>, t: nat, r: Response)
    requires r.kind == FILLED && r.ticker == t
    ensures var ns', value := ns + [Told(r)], r.price as real * r.execQty as real;
            && Net(ns', t) == (if r.side == BUY then Net(ns, t) + r.execQty else Net(ns, t) - r.execQty)
            && Money(ns', t) == (if r.side == BUY then Money(ns, t) - value else Money(ns, t) + value)
            && Turnover(ns', t) == Turnover(ns, t) + r.execQty && Mark(ns', t) == r.price as real
  {
    assert (ns + [Told(r)])[..|ns|] == ns;
  }

  lemma LastFits(ns: seq<News>, t: nat, r: Response)
    requires r.kind == FILLED && r.ticker == t && AllFillsFit(ns + [Told(r)], t)
    ensures IsTradeSide(r.side) && 0 < r.execQty < 0x8000_0000
    ensures -0x8000_0000 < Net(ns + [Told(r)], t) < 0x8000_0000
  {
    var ns' := ns + [Told(r)];
    assert ns'[|ns|] == Told(r) && ns'[..|ns| + 1] == ns';
  }

  lemma FlatIsAllCash(p: Position, cash: real, price: real)
    requires Balanced(p, cash) && p.position == 0
    ensures p.realPnl == cash && Unrealised(p, price) == 0.0
  {
  }

  /** After a fill that balances the books the profit is cash plus the position at the fill's price. */
  lemma FillValues(p: Position, cash: real, f: Fill)
    requires Balanced(AddFill(p, f), cash)
    ensures var p' := AddFill(p, f);
            && p'.totalPnl == cash + p'.position as real * f.price as real
            && (p'.position == 0 ==> p'.realPnl == cash && p'.unrealPnl == 0.0)
  {
    hide AddFill, Unrealised, Balanced;
    var p' := AddFill(p, f);
    ProfitIsCashPlusValue(p', cash, f.price as real);
    Revalued(p, f);
    if p'.position == 0 {
      FlatIsAllCash(p', cash, f.price as real);
    }
  }

  lemma VolumeWraps(a: nat, b: nat)
    ensures (a % 0x1_0000_0000 + b) % 0x1_0000_0000 == (a + b) % 0x1_0000_0000
  {
  }

  lemma FillCounts(p: Position, turnover: nat, f: Fill)
    requires Fits(p, f) && p.volume == turnover % 0x1_0000_0000
    ensures AddFill(p, f).position == if f.side == BUY then p.position + f.qty else p.position - f.qty
    ensures AddFill(p, f).volume == (turnover + f.qty) % 0x1_0000_0000
  {
    hide Unrealised, Realised;
    VolumeWraps(turnover, f.qty);
  }

  lemma FillKeeps(p: Position, ns: seq<News>, t: nat, r: Response)
    requires r.kind == FILLED && r.ticker == t && AllFillsFit(ns + [Told(r)], t)
    requires BooksInOrder(p, ns, t) && Balanced(p, Money(ns, t))
    ensures var p', ns' := AddFill(p, FillOf(r)), ns + [Told(r)];
            BooksInOrder(p', ns', t) && Balanced(p', Money(ns', t))
  {
    hide AddFill, Paid, Unrealised, Balanced, AllFillsFit, Net, Money, Turnover, Mark;
    var cash, cash', f := Money(ns, t), Money(ns + [Told(r)], t), FillOf(r);
    LastFits(ns, t, r);
    OneMoreFill(ns, t, r);
    PaidIs(cash, f);
    assert Paid(cash, f) == cash';
    FillBalances(p, cash, f);
    FillValues(p, cash', f);
    FillCounts(p, Turnover(ns, t), f);
  }

  lemma OneMoreQuote(ns: seq<News>, t: nat, bid: int, ask: int)
    ensures var ns' := ns + [Priced(t, bid, ask)];
            && Net(ns', t) == Net(ns, t) && Money(ns', t) == Money(ns, t) && Turnover(ns', t) == Turnover(ns, t)
            && Mark(ns', t) == if bid != PRICE_INVALID && ask != PRICE_INVALID then (bid + ask) as real / 2.0
                               else Mark(ns, t)
  {
    assert (ns + [Priced(t, bid, ask)])[..|ns|] == ns;
  }

  lemma QuoteKeeps(p: Position, ns: seq<News>, t: nat, bid: int, ask: int)
    requires BooksInOrder(p, ns, t) && Balanced(p, Money(ns, t))
    ensures var p', ns' := UpdateBBO(p, bid, ask), ns + [Priced(t, bid, ask)];
            BooksInOrder(p', ns', t) && Balanced(p', Money(ns', t))
  {
    hide Unrealised, Net, Money, Turnover, Mark, Balanced;
    OneMoreQuote(ns, t, bid, ask);
    if p.position != 0 && bid != PRICE_INVALID && ask != PRICE_INVALID {
      QuoteBalances(p, Money(ns, t), bid, ask);
    }
  }

  lemma OtherNews(ns: seq<News>, n: News, t: nat)
    requires !IsFill(n, t) && !(n.Priced? && n.ticker == t)
    ensures var ns' := ns + [n];
            && Net(ns', t) == Net(ns, t) && Money(ns', t) == Money(ns, t)
            && Turnover(ns', t) == Turnover(ns, t) && Mark(ns', t) == Mark(ns, t)
  {
    assert (ns + [n])[..|ns|] == ns;
  }

  // ----- any news -----

  lemma FitBefore(ns: seq<News>, n: News, t: nat)
    requires AllFillsFit(ns + [n], t)
    ensures AllFillsFit(ns, t)
  {
    hide Net;
    forall i | 0 <= i < |ns| && IsFill(ns[i], t)
      ensures IsTradeSide(ns[i].r.side) && 0 < ns[i].r.execQty < 0x8000_0000
      ensures -0x8000_0000 < Net(ns[..i + 1], t) < 0x8000_0000
    {
      assert (ns + [n])[i] == ns[i] && (ns + [n])[..i + 1] == ns[..i + 1];
    }
  }

  lemma OtherIsInOrder(p: Position, ns: seq<News>, n: News, t: nat)
    requires !IsFill(n, t) && !(n.Priced? && n.ticker == t) && BooksInOrder(p, ns, t)
    ensures BooksInOrder(p, ns + [n], t) && Money(ns + [n], t) == Money(ns, t)
  {
    hide Net, Money, Turnover, Mark;
    OtherNews(ns, n, t);
  }

  lemma NewsKeeps(d: Desk, ns: seq<News>, n: News, t: nat)
    requires d.Sized() && t < ME_MAX_TICKERS && AllFillsFit(ns + [n], t)
    requires if n.Told? then n.r.ticker < ME_MAX_TICKERS else n.ticker < ME_MAX_TICKERS
    requires BooksInOrder(d.positions[t], ns, t) && Balanced(d.positions[t], Money(ns, t))
    ensures var p', ns' := AfterNews(d, n).positions[t], ns + [n];
            BooksInOrder(p', ns', t) && Balanced(p', Money(ns', t))
  {
    hide AddFill, UpdateBBO, BooksInOrder, Balanced, AllFillsFit, Money, UpdateSlot;
    if IsFill(n, t) {
      FillKeeps(d.positions[t], ns, t, n.r);
    } else if n.Priced? && n.ticker == t {
      QuoteKeeps(d.positions[t], ns, t, n.bid, n.ask);
    } else {
      NewsElsewhere(d, n, t);
      OtherIsInOrder(d.positions[t], ns, n, t);
    }
  }

  lemma StartsInOrder(t: nat)
    requires t < ME_MAX_TICKERS
    ensures BooksInOrder(AfterAllNews([]).positions[t], [], t) && Balanced(AfterAllNews([]).positions[t], Money([], t))
  {
  }

  /** Whatever a client has been told, as long as each fill trades something and leaves the position within 32
      bits: its position is what it bought less what it sold, its total profit is the money it received less
      the money it paid plus the position at the latest price, and with nothing open all of that is realised. */
  lemma {:induction false} PositionsAreInOrder(ns: seq<News>, t: nat)
    requires Addressed(ns) && t < ME_MAX_TICKERS && AllFillsFit(ns, t)
    ensures BooksInOrder(AfterAllNews(ns).positions[t], ns, t) && Balanced(AfterAllNews(ns).positions[t], Money(ns, t))
    decreases |ns|
  {
    hide AfterNews, BooksInOrder, Balanced, AllFillsFit, Money;
    if ns == [] {
      StartsInOrder(t);
    } else {
      var before, n := ns[..|ns| - 1], ns[|ns| - 1];
      assert ns == before + [n];
      FitBefore(before, n, t);
      PositionsAreInOrder(before, t);
      NewsKeeps(AfterAllNews(before), before, n, t);
    }
  }
}
