/** Quantities are neither made nor lost: what happens to every accepted order, and what is bought
    against what is sold, over whole runs of the matching engine. */
module Conservation {
  import opened Common
  import opened Ladder
  import opened Matching
  import opened BookInvariant
  import opened Venue

  /** Total quantity of the orders named `ref` on a side. */
  function QtyOf(s: seq<BookOrder>, ref: OrderRef): nat {
    if s == [] then 0 else (if s[0].key == ref then s[0].qty else 0) + QtyOf(s[1..], ref)
  }

  predicate Concerns(r: Response, kind: ResponseType, t: nat, ref: OrderRef) {
    r.kind == kind && r.ticker == t && r.ref == ref
  }

  /** The quantity a response reports: traded for a fill, outstanding for the others. */
  function Reported(r: Response): nat {
    if r.kind == FILLED then r.execQty else r.leavesQty
  }

  /** Total quantity that responses of one kind report for an order name. */
  function Total(rs: seq<Response>, kind: ResponseType, t: nat, ref: OrderRef): nat
    decreases |rs|
  {
    if rs == [] then 0
    else
      var r := rs[|rs| - 1];
      Total(rs[..|rs| - 1], kind, t, ref) + (if Concerns(r, kind, t, ref) then Reported(r) else 0)
  }

  lemma {:induction false} TotalAppend(a: seq<Response>, b: seq<Response>, kind: ResponseType, t: nat, ref: OrderRef)
    ensures Total(a + b, kind, t, ref) == Total(a, kind, t, ref) + Total(b, kind, t, ref)
    decreases |b|
  {
    if b == [] {
      assert a + b == a;
    } else {
      assert (a + b)[..|a + b| - 1] == a + b[..|b| - 1];
      TotalAppend(a, b[..|b| - 1], kind, t, ref);
    }
  }

  lemma TotalOne(r: Response, kind: ResponseType, t: nat, ref: OrderRef)
    ensures Total([r], kind, t, ref) == if Concerns(r, kind, t, ref) then Reported(r) else 0
  {
    assert [r][..0] == [];
  }

  lemma TotalTwo(r: Response, q: Response, kind: ResponseType, t: nat, ref: OrderRef)
    ensures Total([r, q], kind, t, ref) == Total([r], kind, t, ref) + Total([q], kind, t, ref)
  {
    TotalAppend([r], [q], kind, t, ref);
    assert [r] + [q] == [r, q];
  }

  /** Total quantity traded on one side of an instrument. */
  function Traded(rs: seq<Response>, t: nat, side: Side): nat
    decreases |rs|
  {
    if rs == [] then 0
    else
      var r := rs[|rs| - 1];
      Traded(rs[..|rs| - 1], t, side) + (if r.kind == FILLED && r.ticker == t && r.side == side then r.execQty else 0)
  }

  lemma {:induction false} TradedAppend(a: seq<Response>, b: seq<Response>, t: nat, side: Side)
    ensures Traded(a + b, t, side) == Traded(a, t, side) + Traded(b, t, side)
    decreases |b|
  {
    if b == [] {
      assert a + b == a;
    } else {
      assert (a + b)[..|a + b| - 1] == a + b[..|b| - 1];
      TradedAppend(a, b[..|b| - 1], t, side);
    }
  }

  /** Total quantity of the trades announced to the market. */
  function Announced(us: seq<Update>, t: nat): nat
    decreases |us|
  {
    if us == [] then 0
    else
      var u := us[|us| - 1];
      Announced(us[..|us| - 1], t) + (if u.kind == TRADE && u.ticker == t then u.qty else 0)
  }

  lemma {:induction false} AnnouncedAppend(a: seq<Update>, b: seq<Update>, t: nat)
    ensures Announced(a + b, t) == Announced(a, t) + Announced(b, t)
    decreases |b|
  {
    if b == [] {
      assert a + b == a;
    } else {
      assert (a + b)[..|a + b| - 1] == a + b[..|b| - 1];
      AnnouncedAppend(a, b[..|b| - 1], t);
    }
  }

  // ----- the book operations -----

  lemma {:induction false} EnqueueWeighs(s: seq<BookOrder>, o: BookOrder, ref: OrderRef)
    ensures QtyOf(Enqueue(s, o), ref) == QtyOf(s, ref) + (if o.key == ref then o.qty else 0)
  {
    if s == [] || Better(o.side, o.price, s[0].price) {
      assert ([o] + s)[1..] == s;
    } else {
      assert ([s[0]] + Enqueue(s[1..], o))[1..] == Enqueue(s[1..], o);
      EnqueueWeighs(s[1..], o, ref);
    }
  }

  lemma {:induction false} DropWeighs(s: seq<BookOrder>, key: OrderRef, ref: OrderRef)
    ensures match Find(s, key)
            case None => Drop(s, key) == s
            case Some(k) => QtyOf(s, ref) == QtyOf(Drop(s, key), ref) + (if key == ref then s[k].qty else 0)
  {
    if s != [] && s[0].key != key {
      DropWeighs(s[1..], key, ref);
      assert ([s[0]] + Drop(s[1..], key))[1..] == Drop(s[1..], key);
    }
  }

  // ----- matching -----

  lemma PairTotals(t: nat, inc: BookOrder, head: BookOrder, fill: nat, ref: OrderRef)
    requires fill <= inc.qty && fill <= head.qty
    ensures Total(FillPair(t, inc, head, fill), FILLED, t, ref)
         == (if inc.key == ref then fill else 0) + (if head.key == ref then fill else 0)
    ensures Total(FillPair(t, inc, head, fill), ACCEPTED, t, ref)
        == Total(FillPair(t, inc, head, fill), CANCELED, t, ref) == 0
  {
    var pair := FillPair(t, inc, head, fill);
    forall kind: ResponseType
      ensures Total(pair, kind, t, ref) == Total([pair[0]], kind, t, ref) + Total([pair[1]], kind, t, ref)
    {
      TotalTwo(pair[0], pair[1], kind, t, ref);
    }
    TotalOne(pair[0], FILLED, t, ref);
    TotalOne(pair[1], FILLED, t, ref);
    TotalOne(pair[0], ACCEPTED, t, ref);
    TotalOne(pair[1], ACCEPTED, t, ref);
    TotalOne(pair[0], CANCELED, t, ref);
    TotalOne(pair[1], CANCELED, t, ref);
  }

  /** What an order name has in front of the loop it has afterwards, still open or reported filled. */
  lemma {:induction false} MatchConserves(t: nat, inc: BookOrder, opp: seq<BookOrder>, ref: OrderRef)
    ensures var m := MatchAll(t, inc, opp);
            && QtyOf(opp, ref) + (if inc.key == ref then inc.qty else 0)
            == QtyOf(m.rest, ref) + (if inc.key == ref then m.leaves else 0) + Total(m.responses, FILLED, t, ref)
            && Total(m.responses, ACCEPTED, t, ref) == Total(m.responses, CANCELED, t, ref) == 0
    decreases |opp|
  {
    hide Total;
    if inc.qty == 0 || opp == [] || !Crosses(inc.side, inc.price, opp[0].price) {
      TotalNone(t, ref);
    } else {
      var fill := Min(inc.qty, opp[0].qty);
      var one := MatchFront(t, inc, opp);
      PairTotals(t, inc, opp[0], fill, ref);
      if inc.qty >= opp[0].qty {
        var more := MatchAll(t, inc.(qty := one.leaves), opp[1..]);
        MatchConserves(t, inc.(qty := one.leaves), opp[1..], ref);
        TotalAppend(one.responses, more.responses, FILLED, t, ref);
        TotalAppend(one.responses, more.responses, ACCEPTED, t, ref);
        TotalAppend(one.responses, more.responses, CANCELED, t, ref);
      } else {
        assert one.responses + [] == one.responses;
        assert one.rest[1..] == opp[1..];
      }
    }
  }

  lemma TotalNone(t: nat, ref: OrderRef)
    ensures Total([], FILLED, t, ref) == Total([], ACCEPTED, t, ref) == Total([], CANCELED, t, ref) == 0
  {
  }

  lemma PairTrades(t: nat, inc: BookOrder, head: BookOrder, fill: nat)
    requires IsTradeSide(inc.side) && head.side == Opposite(inc.side) && fill <= inc.qty && fill <= head.qty
    ensures Traded(FillPair(t, inc, head, fill), t, BUY) == Traded(FillPair(t, inc, head, fill), t, SELL) == fill
    ensures Announced(FillUpdates(t, inc, head, fill), t) == fill
  {
    var pair, us := FillPair(t, inc, head, fill), FillUpdates(t, inc, head, fill);
    assert [pair[0]] + [pair[1]] == pair && [us[0]] + [us[1]] == us;
    TradedAppend([pair[0]], [pair[1]], t, BUY);
    TradedAppend([pair[0]], [pair[1]], t, SELL);
    AnnouncedAppend([us[0]], [us[1]], t);
    assert [pair[0]][..0] == [] && [pair[1]][..0] == [] && [us[0]][..0] == [] && [us[1]][..0] == [];
  }

  /** Both sides of every match report the same quantity, and so does the market. */
  lemma {:induction false} MatchBalances(t: nat, inc: BookOrder, opp: seq<BookOrder>)
    requires IsTradeSide(inc.side) && Live(Opposite(inc.side), opp)
    ensures var m := MatchAll(t, inc, opp);
            Traded(m.responses, t, BUY) == Traded(m.responses, t, SELL) == Announced(m.updates, t)
    decreases |opp|
  {
    hide Traded, Announced;
    if inc.qty == 0 || opp == [] || !Crosses(inc.side, inc.price, opp[0].price) {
      NothingTraded(t);
    } else {
      var fill := Min(inc.qty, opp[0].qty);
      var one := MatchFront(t, inc, opp);
      PairTrades(t, inc, opp[0], fill);
      if inc.qty >= opp[0].qty {
        var more := MatchAll(t, inc.(qty := one.leaves), opp[1..]);
        MatchBalances(t, inc.(qty := one.leaves), opp[1..]);
        TradedAppend(one.responses, more.responses, t, BUY);
        TradedAppend(one.responses, more.responses, t, SELL);
        AnnouncedAppend(one.updates, more.updates, t);
      } else {
        assert one.responses + [] == one.responses && one.updates + [] == one.updates;
      }
    }
  }

  lemma NothingTraded(t: nat)
    ensures Traded([], t, BUY) == Traded([], t, SELL) == Announced([], t) == 0
  {
  }

  // ----- one request -----

  /** What order name `ref` has in the book. */
  function Resting(b: Book, ref: OrderRef): nat {
    QtyOf(b.bids, ref) + QtyOf(b.asks, ref)
  }

  /** What the name had and what was newly accepted is what it has, what was filled and what was cancelled. */
  ghost predicate Settles(b: Book, s: Step, t: nat, ref: OrderRef) {
    Resting(b, ref) + Total(s.responses, ACCEPTED, t, ref)
    == Resting(s.book, ref) + Total(s.responses, FILLED, t, ref) + Total(s.responses, CANCELED, t, ref)
  }

  lemma AddConserves(b: Book, r: Request, ref: OrderRef)
    requires IsTradeSide(r.side)
    ensures var s := Add(b, r.ticker, r.ref, r.side, r.price, r.qty);
            Settles(b, s, r.ticker, ref)
  {
    hide Total, MatchAll, Enqueue;
    var t, inc := r.ticker, Incoming(b, r.ref, r.side, r.price, r.qty);
    var m := MatchAll(t, inc, b.On(Opposite(r.side)));
    MatchConserves(t, inc, b.On(Opposite(r.side)), ref);
    var first := AcceptedResponse(t, inc);
    TotalAppend([first], m.responses, ACCEPTED, t, ref);
    TotalAppend([first], m.responses, FILLED, t, ref);
    TotalAppend([first], m.responses, CANCELED, t, ref);
    TotalOne(first, ACCEPTED, t, ref);
    TotalOne(first, FILLED, t, ref);
    TotalOne(first, CANCELED, t, ref);
    EnqueueWeighs(b.On(r.side), inc.(qty := m.leaves, priority := NextPriority(b.On(r.side), r.price)), ref);
  }

  lemma CancelConserves(b: Book, t: nat, name: OrderRef, ref: OrderRef)
    requires Good(b)
    ensures var s := Cancel(b, t, name);
            Settles(b, s, t, ref)
  {
    hide Total, Drop;
    var r := Cancel(b, t, name).responses[0];
    TotalOne(r, ACCEPTED, t, ref);
    TotalOne(r, FILLED, t, ref);
    TotalOne(r, CANCELED, t, ref);
    DropWeighs(b.bids, name, ref);
    DropWeighs(b.asks, name, ref);
    match Lookup(b, name)
    case None =>
    case Some(o) =>
      assert o in b.bids ==> o.side == BUY;
      assert o in b.asks ==> o.side == SELL;
  }

  lemma AddBalances(b: Book, r: Request)
    requires Good(b) && IsTradeSide(r.side)
    ensures var s := Add(b, r.ticker, r.ref, r.side, r.price, r.qty);
            Traded(s.responses, r.ticker, BUY) == Traded(s.responses, r.ticker, SELL) == Announced(s.updates, r.ticker)
  {
    hide Traded, Announced, MatchAll, Enqueue;
    var t, inc := r.ticker, Incoming(b, r.ref, r.side, r.price, r.qty);
    var opp := b.On(Opposite(r.side));
    var m, first := MatchAll(t, inc, opp), AcceptedResponse(t, inc);
    MatchBalances(t, inc, opp);
    TradedAppend([first], m.responses, t, BUY);
    TradedAppend([first], m.responses, t, SELL);
    NoTrade(first, t);
    if m.leaves > 0 {
      var u := AddedUpdate(t, inc.(qty := m.leaves, priority := NextPriority(b.On(r.side), r.price)));
      AnnouncedAppend(m.updates, [u], t);
      NoAnnouncement(u, t);
    }
  }

  lemma NoTrade(r: Response, t: nat)
    requires r.kind != FILLED
    ensures Traded([r], t, BUY) == Traded([r], t, SELL) == 0
  {
    assert [r][..0] == [];
  }

  lemma NoAnnouncement(u: Update, t: nat)
    requires u.kind != TRADE
    ensures Announced([u], t) == 0
  {
    assert [u][..0] == [];
  }

  lemma ProcessConserves(b: Book, r: Request, ref: OrderRef)
    requires Good(b) && Admissible(b, r)
    ensures var s := Process(b, r);
            && Settles(b, s, r.ticker, ref)
            && Traded(s.responses, r.ticker, BUY) == Traded(s.responses, r.ticker, SELL)
                == Announced(s.updates, r.ticker)
  {
    hide Add, Total, Traded, Announced;
    match r.kind
    case NEW =>
      AddConserves(b, r, ref);
      AddBalances(b, r);
    case CANCEL =>
      CancelConserves(b, r.ticker, r.ref, ref);
      NoTrade(Cancel(b, r.ticker, r.ref).responses[0], r.ticker);
      match Lookup(b, r.ref) {
        case None => NothingTraded(r.ticker);
        case Some(o) => NoAnnouncement(CanceledUpdate(r.ticker, o), r.ticker);
      }
  }

  // ----- whole runs -----

  lemma {:induction false} OtherTickerSilent(rs: seq<Response>, t: nat, ref: OrderRef)
    requires forall i :: 0 <= i < |rs| ==> rs[i].ticker != t
    ensures Total(rs, ACCEPTED, t, ref) == Total(rs, FILLED, t, ref) == Total(rs, CANCELED, t, ref) == 0
    ensures Traded(rs, t, BUY) == Traded(rs, t, SELL) == 0
    decreases |rs|
  {
    if rs != [] {
      OtherTickerSilent(rs[..|rs| - 1], t, ref);
    }
  }

  lemma {:induction false} OtherTickerUnannounced(us: seq<Update>, t: nat)
    requires forall i :: 0 <= i < |us| ==> us[i].ticker != t
    ensures Announced(us, t) == 0
    decreases |us|
  {
    if us != [] {
      OtherTickerUnannounced(us[..|us| - 1], t);
    }
  }

  /** Quantity is accounted for, for one instrument and one order name. */
  ghost predicate Conserved(e: Engine, t: nat, ref: OrderRef)
    requires t < |e.books|
  {
    && Total(e.responses, ACCEPTED, t, ref)
    == Resting(e.books[t], ref) + Total(e.responses, FILLED, t, ref) + Total(e.responses, CANCELED, t, ref)
    && Traded(e.responses, t, BUY) == Traded(e.responses, t, SELL) == Announced(e.log, t)
  }

  lemma ServeConserves(e: Engine, r: Request, t: nat, ref: OrderRef)
    requires Accepts(e, r) && t < |e.books| && Good(e.books[r.ticker]) && Conserved(e, t, ref)
    ensures Conserved(Serve(e, r), t, ref)
  {
    hide Total, Traded, Announced, Process, Good, Resting;
    var s := Process(e.books[r.ticker], r);
    TotalAppend(e.responses, s.responses, ACCEPTED, t, ref);
    TotalAppend(e.responses, s.responses, FILLED, t, ref);
    TotalAppend(e.responses, s.responses, CANCELED, t, ref);
    TradedAppend(e.responses, s.responses, t, BUY);
    TradedAppend(e.responses, s.responses, t, SELL);
    AnnouncedAppend(e.log, s.updates, t);
    if r.ticker == t {
      ProcessConserves(e.books[t], r, ref);
    } else {
      ProcessTicker(e.books[r.ticker], r);
      OtherTickerSilent(s.responses, t, ref);
      ProcessTicker(e.books[r.ticker], r);
      OtherTickerUnannounced(s.updates, t);
    }
  }

  /** Conservation over whole runs. For every instrument and every order name, the quantity accepted
      is the quantity that still rests plus the quantities reported filled and cancelled; and for
      every instrument as much is bought as is sold and as is announced as traded. */
  lemma {:induction false} RunConserves(rs: seq<Request>, t: nat, ref: OrderRef)
    requires Accepted(rs) && t < ME_MAX_TICKERS
    ensures |ServeAll(rs).books| == ME_MAX_TICKERS && Conserved(ServeAll(rs), t, ref)
    decreases |rs|
  {
    LogDescribesBooks(rs);
    if rs != [] {
      var before := rs[..|rs| - 1];
      RunConserves(before, t, ref);
      LogDescribesBooks(before);
      assert Described(ServeAll(before), rs[|rs| - 1].ticker);
      ServeConserves(ServeAll(before), rs[|rs| - 1], t, ref);
    }
  }
}
