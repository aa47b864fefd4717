/** What one request does to the order book of one instrument: matching by price and time,
    resting, cancelling, and the responses and market updates sent out on the way. */
module Matching {
  import opened Common
  import opened Ladder

  type BookOrder = Order<OrderRef>

  datatype Book = Book(bids: seq<BookOrder>, asks: seq<BookOrder>, nextOid: nat)
  {
    function On(side: Side): seq<BookOrder> {
      if side == BUY then bids else asks
    }

    function With(side: Side, s: seq<BookOrder>): Book {
      if side == BUY then this.(bids := s) else this.(asks := s)
    }
  }

  const EMPTY_BOOK := Book([], [], 1)

  /** The new state of the book and everything that was sent. */
  datatype Step = Step(book: Book, responses: seq<Response>, updates: seq<Update>)

  /** The effect of the matching loop on the opposite side. */
  datatype Match = Match(rest: seq<BookOrder>, leaves: nat, responses: seq<Response>, updates: seq<Update>)

  /** An incoming order limited at `price` may trade with a resting order at `resting`. */
  predicate Crosses(side: Side, price: int, resting: int) {
    // Repair: me_order_book.cpp:232 breaks out of the SELL loop on `price < bid`; the BUY test
    // mirrored is `price > bid`. `Crossing.dfy` treats the comparison as written.
    if side == BUY then price >= resting else price <= resting
  }

  /** `match` receives the incoming order's market id through a 32-bit parameter
      (me_order_book.cpp:216). */
  function Narrow(oid: nat): nat {
    oid % 0x1_0000_0000
  }

  function FillResponse(ticker: nat, o: BookOrder, oid: nat, price: int, fill: nat, left: nat): Response {
    Response(FILLED, o.key, ticker, oid, o.side, price, fill, left)
  }

  function TradeUpdate(ticker: nat, side: Side, price: int, fill: nat): Update {
    Update(TRADE, ORDER_ID_INVALID, ticker, side, price, fill, PRIORITY_INVALID)
  }

  function FilledUpdate(ticker: nat, o: BookOrder): Update {
    Update(REMOVE, o.oid, ticker, o.side, o.price, o.qty, PRIORITY_INVALID)
  }

  function ReducedUpdate(ticker: nat, o: BookOrder, left: nat): Update {
    Update(MODIFY, o.oid, ticker, o.side, o.price, left, o.priority)
  }

  /** The two fill reports of one match: first to the incoming order, then to the resting one. */
  function FillPair(ticker: nat, inc: BookOrder, head: BookOrder, fill: nat): seq<Response>
    requires fill <= inc.qty && fill <= head.qty
  {
    [FillResponse(ticker, inc, Narrow(inc.oid), head.price, fill, inc.qty - fill),
     FillResponse(ticker, head, head.oid, head.price, fill, head.qty - fill)]
  }

  function FillUpdates(ticker: nat, inc: BookOrder, head: BookOrder, fill: nat): seq<Update>
    requires fill <= head.qty
  {
    [TradeUpdate(ticker, inc.side, head.price, fill),
     if fill == head.qty then FilledUpdate(ticker, head) else ReducedUpdate(ticker, head, head.qty - fill)]
  }

  /** One round of the matching loop: `inc` trades against the first order of the opposite side. */
  function MatchFront(ticker: nat, inc: BookOrder, opp: seq<BookOrder>): Match
    requires opp != []
  {
    var head := opp[0];
    var fill := Min(inc.qty, head.qty);
    Match((if fill == head.qty then [] else [head.(qty := head.qty - fill)]) + opp[1..],
          inc.qty - fill, FillPair(ticker, inc, head, fill), FillUpdates(ticker, inc, head, fill))
  }

  /** Matches `inc` against the front of the opposite side until it is filled, the side is
      empty, or the front no longer crosses. */
  function MatchAll(ticker: nat, inc: BookOrder, opp: seq<BookOrder>): (m: Match)
    ensures m.leaves <= inc.qty
    ensures |m.rest| <= |opp|
    decreases |opp|
  {
    if inc.qty == 0 || opp == [] || !Crosses(inc.side, inc.price, opp[0].price) then
      Match(opp, inc.qty, [], [])
    else
      var one := MatchFront(ticker, inc, opp);
      var more := if inc.qty >= opp[0].qty then MatchAll(ticker, inc.(qty := one.leaves), opp[1..])
                  else Match(one.rest, 0, [], []);
      more.(responses := one.responses + more.responses, updates := one.updates + more.updates)
  }

  lemma MatchRound(ticker: nat, inc: BookOrder, opp: seq<BookOrder>)
    requires inc.qty > 0 && opp != [] && Crosses(inc.side, inc.price, opp[0].price)
    ensures var one := MatchFront(ticker, inc, opp);
            var more := MatchAll(ticker, inc.(qty := one.leaves), one.rest);
            var all := MatchAll(ticker, inc, opp);
            && all.rest == more.rest && all.leaves == more.leaves
            && all.responses == one.responses + more.responses && all.updates == one.updates + more.updates
  {
    var one := MatchFront(ticker, inc, opp);
    if inc.qty >= opp[0].qty {
      assert one.rest == opp[1..];
    }
  }

  predicate Trades(inc: BookOrder, opp: seq<BookOrder>) {
    inc.qty > 0 && opp != [] && Crosses(inc.side, inc.price, opp[0].price)
  }

  lemma MatchStops(ticker: nat, inc: BookOrder, opp: seq<BookOrder>)
    requires !Trades(inc, opp)
    ensures MatchAll(ticker, inc, opp) == Match(opp, inc.qty, [], [])
  {
  }

  /** The front order is filled completely and matching goes on behind it. */
  lemma MatchGoesOn(ticker: nat, inc: BookOrder, opp: seq<BookOrder>)
    requires Trades(inc, opp) && inc.qty >= opp[0].qty
    ensures var all, q := MatchAll(ticker, inc, opp), opp[0].qty;
            var more := MatchAll(ticker, inc.(qty := inc.qty - q), opp[1..]);
            && all.rest == more.rest && all.leaves == more.leaves
            && all.responses == FillPair(ticker, inc, opp[0], q) + more.responses
            && all.updates == FillUpdates(ticker, inc, opp[0], q) + more.updates
  {
    hide FillPair, FillUpdates;
  }

  /** The incoming order is filled completely and leaves a part of the front order. */
  lemma MatchEndsInside(ticker: nat, inc: BookOrder, opp: seq<BookOrder>)
    requires Trades(inc, opp) && inc.qty < opp[0].qty
    ensures MatchAll(ticker, inc, opp)
         == Match([opp[0].(qty := opp[0].qty - inc.qty)] + opp[1..], 0,
                  FillPair(ticker, inc, opp[0], inc.qty), FillUpdates(ticker, inc, opp[0], inc.qty))
  {
    var rs, us := FillPair(ticker, inc, opp[0], inc.qty), FillUpdates(ticker, inc, opp[0], inc.qty);
    assert rs + [] == rs && us + [] == us;
  }

  function AcceptedResponse(ticker: nat, inc: BookOrder): Response {
    Response(ACCEPTED, inc.key, ticker, inc.oid, inc.side, inc.price, 0, inc.qty)
  }

  function AddedUpdate(ticker: nat, o: BookOrder): Update {
    Update(ADD, o.oid, ticker, o.side, o.price, o.qty, o.priority)
  }

  function Incoming(b: Book, ref: OrderRef, side: Side, price: int, qty: nat): BookOrder {
    Order(ref, b.nextOid, side, price, qty, 0)
  }

  /** A new order is acknowledged, matched, and what is left of it rests. */
  function Add(b: Book, ticker: nat, ref: OrderRef, side: Side, price: int, qty: nat): Step {
    var inc := Incoming(b, ref, side, price, qty);
    var m := MatchAll(ticker, inc, b.On(Opposite(side)));
    var b' := b.(nextOid := b.nextOid + 1).With(Opposite(side), m.rest);
    if m.leaves == 0 then
      Step(b', [AcceptedResponse(ticker, inc)] + m.responses, m.updates)
    else
      var o := inc.(qty := m.leaves, priority := NextPriority(b.On(side), price));
      Step(b'.With(side, Enqueue(b.On(side), o)),
           [AcceptedResponse(ticker, inc)] + m.responses, m.updates + [AddedUpdate(ticker, o)])
  }

  function CanceledResponse(ticker: nat, o: BookOrder): Response {
    Response(CANCELED, o.key, ticker, o.oid, o.side, o.price, QTY_INVALID, o.qty)
  }

  function CanceledUpdate(ticker: nat, o: BookOrder): Update {
    Update(REMOVE, o.oid, ticker, o.side, o.price, 0, o.priority)
  }

  function RejectedResponse(ticker: nat, ref: OrderRef): Response {
    Response(CANCEL_REJECTED, ref, ticker, ORDER_ID_INVALID, INVALID, PRICE_INVALID, QTY_INVALID, QTY_INVALID)
  }

  /** The resting order a client means by `ref`, on whichever side it rests. */
  function Lookup(b: Book, ref: OrderRef): (r: Option<BookOrder>)
    ensures r.Some? ==> r.value.key == ref && (r.value in b.bids || r.value in b.asks)
    ensures r.None? ==> (forall o :: o in b.bids || o in b.asks ==> o.key != ref)
  {
    match Find(b.bids, ref)
    case Some(k) => Some(b.bids[k])
    case None =>
      match Find(b.asks, ref)
      case Some(k) => Some(b.asks[k])
      case None => None
  }

  function Cancel(b: Book, ticker: nat, ref: OrderRef): Step {
    match Lookup(b, ref)
    case None => Step(b, [RejectedResponse(ticker, ref)], [])
    case Some(o) =>
      Step(b.With(o.side, Drop(b.On(o.side), ref)), [CanceledResponse(ticker, o)], [CanceledUpdate(ticker, o)])
  }

  /** Dispatch of a client request.
      Repair: matching_engine.cpp:68-73 has no `break` after CANCEL and falls into FATAL. */
  function Process(b: Book, r: Request): Step {
    match r.kind
    case NEW => Add(b, r.ticker, r.ref, r.side, r.price, r.qty)
    case CANCEL => Cancel(b, r.ticker, r.ref)
  }

  // ----- the book invariant -----

  /** Every resting order is older than `next`. */
  ghost predicate Older(s: seq<BookOrder>, next: nat) {
    forall i :: 0 <= i < |s| ==> s[i].oid < next
  }

  ghost predicate DistinctIds(s: seq<BookOrder>) {
    forall i, j :: 0 <= i < j < |s| ==> s[i].oid != s[j].oid
  }

  /** The orders `own` on `side` and the orders `opp` facing them share no client name and no
      market id, and no two of them would trade with each other. */
  ghost predicate Facing(side: Side, own: seq<BookOrder>, opp: seq<BookOrder>) {
    forall i, j :: 0 <= i < |own| && 0 <= j < |opp| ==> Clear(side, own[i], opp[j])
  }

  predicate Clear(side: Side, a: BookOrder, b: BookOrder) {
    a.key != b.key && a.oid != b.oid && !Crosses(side, a.price, b.price)
  }

  ghost predicate GoodSide(side: Side, s: seq<BookOrder>, next: nat) {
    Sorted(side, s) && Live(side, s) && DistinctKeys(s) && DistinctIds(s) && Older(s, next)
  }

  /** The invariant of a book: each side sorted by price and time with live, uniquely named
      orders, and every bid priced below every ask. */
  ghost predicate Good(b: Book) {
    && GoodSide(BUY, b.bids, b.nextOid)
    && GoodSide(SELL, b.asks, b.nextOid)
    && Facing(BUY, b.bids, b.asks)
  }

  /** A request the protocol allows: a trade side, and for NEW a name that is not in use. */
  ghost predicate Admissible(b: Book, r: Request) {
    r.kind == NEW ==> IsTradeSide(r.side) && Lookup(b, r.ref) == None
  }

  // ----- price-time priority -----

  /** Quantity standing in front of position `i`. */
  ghost function Depth(s: seq<BookOrder>, i: nat): nat
    requires i <= |s|
  {
    if i == 0 then 0 else Depth(s, i - 1) + s[i - 1].qty
  }

  /** A buyer pays no more than its limit, and a seller gets no less. */
  ghost predicate Affords(inc: BookOrder, price: int) {
    if inc.side == BUY then price <= inc.price else inc.price <= price
  }

  /** What the order at position `i` must trade, computed from the book alone: nothing if its price is not
      within the limit, otherwise whatever the orders in front of it leave, up to its own quantity. */
  ghost function Taken(inc: BookOrder, opp: seq<BookOrder>, i: nat): nat
    requires i < |opp|
  {
    if !Affords(inc, opp[i].price) || inc.qty <= Depth(opp, i) then 0
    else if opp[i].qty <= inc.qty - Depth(opp, i) then opp[i].qty
    else inc.qty - Depth(opp, i)
  }

  /** `r` tells the owner of `o` of a fill. */
  ghost predicate TellsFill(r: Response, o: BookOrder, ticker: nat, oid: nat, price: int, fill: nat, left: int) {
    && r.kind == FILLED && r.ref == o.key && r.ticker == ticker && r.oid == oid && r.side == o.side
    && r.price == price && r.execQty == fill && r.leavesQty == left
  }

  /** The pair of fill reports that position `i` of the opposite side calls for: first to the incoming
      order, then to the resting one, both at the resting price. */
  ghost predicate ReportAt(ticker: nat, inc: BookOrder, opp: seq<BookOrder>, i: nat, rs: seq<Response>)
    requires i < |opp| && 2 * i + 1 < |rs|
  {
    var taken := Taken(inc, opp, i);
    && Depth(opp, i) + taken <= inc.qty
    && TellsFill(rs[2 * i], inc, ticker, inc.oid % 0x1_0000_0000, opp[i].price, taken, inc.qty - Depth(opp, i) - taken)
    && TellsFill(rs[2 * i + 1], opp[i], ticker, opp[i].oid, opp[i].price, taken, opp[i].qty - taken)
  }

  /** The pair of updates that position `i` calls for: the trade, on the incoming side and at the resting
      price, then what becomes of the resting order. */
  ghost predicate AnnouncedAt(ticker: nat, inc: BookOrder, opp: seq<BookOrder>, i: nat, us: seq<Update>)
    requires i < |opp| && 2 * i + 1 < |us|
  {
    var taken, trade, after := Taken(inc, opp, i), us[2 * i], us[2 * i + 1];
    && trade.kind == TRADE && trade.oid == ORDER_ID_INVALID && trade.ticker == ticker && trade.side == inc.side
    && trade.price == opp[i].price && trade.qty == taken && trade.priority == PRIORITY_INVALID
    && after.oid == opp[i].oid && after.ticker == ticker && after.side == opp[i].side && after.price == opp[i].price
    && if taken == opp[i].qty
       then after.kind == REMOVE && after.qty == taken && after.priority == PRIORITY_INVALID
       else after.kind == MODIFY && after.qty == opp[i].qty - taken && after.priority == opp[i].priority
  }

  /** The updates for the first `n` orders of the opposite side, and no others. */
  ghost predicate Announces(ticker: nat, inc: BookOrder, opp: seq<BookOrder>, n: nat, us: seq<Update>) {
    n <= |opp| && |us| == 2 * n && forall i :: 0 <= i < n ==> AnnouncedAt(ticker, inc, opp, i, us)
  }

  /** The fill reports for the first `n` orders of the opposite side, and no others. */
  ghost predicate Reports(ticker: nat, inc: BookOrder, opp: seq<BookOrder>, n: nat, rs: seq<Response>) {
    n <= |opp| && |rs| == 2 * n && forall i :: 0 <= i < n ==> ReportAt(ticker, inc, opp, i, rs)
  }

  lemma {:induction false} DepthTail(s: seq<BookOrder>, i: nat)
    requires 1 <= i <= |s|
    ensures Depth(s, i) == s[0].qty + Depth(s[1..], i - 1)
  {
    if i > 1 {
      DepthTail(s, i - 1);
    }
  }

  lemma TakenTail(inc: BookOrder, opp: seq<BookOrder>, i: nat)
    requires 1 <= i < |opp| && opp[0].qty <= inc.qty
    ensures Taken(inc, opp, i) == Taken(inc.(qty := inc.qty - opp[0].qty), opp[1..], i - 1)
    ensures Depth(opp, i) == opp[0].qty + Depth(opp[1..], i - 1)
  {
    DepthTail(opp, i);
  }

  /** How many resting orders trade. */
  ghost function Fills(inc: BookOrder, opp: seq<BookOrder>): nat
    ensures Fills(inc, opp) <= |opp|
    decreases |opp|
  {
    if inc.qty == 0 || opp == [] || !Crosses(inc.side, inc.price, opp[0].price) then 0
    else if inc.qty <= opp[0].qty then 1
    else 1 + Fills(inc.(qty := inc.qty - opp[0].qty), opp[1..])
  }

  lemma {:induction false} DepthMonotone(s: seq<BookOrder>, i: nat, j: nat)
    requires i <= j <= |s|
    ensures Depth(s, i) <= Depth(s, j)
  {
    if i < j {
      DepthMonotone(s, i, j - 1);
    }
  }

  lemma CrossingIsAPrefix(inc: BookOrder, opp: seq<BookOrder>, i: nat, j: nat)
    requires IsTradeSide(inc.side) && Sorted(Opposite(inc.side), opp)
    requires i <= j < |opp| && Crosses(inc.side, inc.price, opp[j].price)
    ensures Crosses(inc.side, inc.price, opp[i].price)
  {
    if i < j {
      assert Ahead(Opposite(inc.side), opp[i], opp[j]);
    }
  }

  /** Exactly the first `Fills` orders trade, all of them in full except perhaps the last. */
  lemma {:induction false} FillsArePrefix(inc: BookOrder, opp: seq<BookOrder>)
    requires IsTradeSide(inc.side) && Sorted(Opposite(inc.side), opp) && Live(Opposite(inc.side), opp)
    ensures forall i :: 0 <= i < |opp| ==> (Taken(inc, opp, i) > 0 <==> i < Fills(inc, opp))
    ensures forall i :: 0 <= i < Fills(inc, opp) - 1 ==> Taken(inc, opp, i) == opp[i].qty
    decreases |opp|
  {
    var n := Fills(inc, opp);
    if inc.qty == 0 || opp == [] {
    } else if !Crosses(inc.side, inc.price, opp[0].price) {
      forall i | 0 <= i < |opp|
        ensures Taken(inc, opp, i) == 0
      {
        if Crosses(inc.side, inc.price, opp[i].price) {
          CrossingIsAPrefix(inc, opp, 0, i);
        }
      }
    } else if inc.qty <= opp[0].qty {
      forall i | 1 <= i < |opp|
        ensures Taken(inc, opp, i) == 0
      {
        DepthMonotone(opp, 1, i);
      }
    } else {
      var inc' := inc.(qty := inc.qty - opp[0].qty);
      FillsArePrefix(inc', opp[1..]);
      forall i | 1 <= i < |opp|
        ensures Taken(inc, opp, i) == Taken(inc', opp[1..], i - 1) && opp[i] == opp[1..][i - 1]
      {
        TakenTail(inc, opp, i);
      }
    }
  }

  /** What is left of the opposite side once the first `n` orders have traded. */
  ghost function Survivors(inc: BookOrder, opp: seq<BookOrder>, n: nat): seq<BookOrder>
    requires n <= |opp|
  {
    if n == 0 || Taken(inc, opp, n - 1) >= opp[n - 1].qty then opp[n..]
    else [opp[n - 1].(qty := opp[n - 1].qty - Taken(inc, opp, n - 1))] + opp[n..]
  }

  lemma OneFill(ticker: nat, inc: BookOrder, opp: seq<BookOrder>)
    requires opp != [] && Crosses(inc.side, inc.price, opp[0].price) && 0 < inc.qty <= opp[0].qty
    ensures var m := MatchAll(ticker, inc, opp);
            && m.responses == FillPair(ticker, inc, opp[0], inc.qty)
            && m.updates == FillUpdates(ticker, inc, opp[0], inc.qty)
            && m.rest == Survivors(inc, opp, 1) && m.leaves == 0
  {
    assert Depth(opp, 0) == 0;
    if inc.qty == opp[0].qty {
      assert MatchAll(ticker, inc.(qty := 0), opp[1..]) == Match(opp[1..], 0, [], []);
    }
  }

  lemma ReportsShift(ticker: nat, inc: BookOrder, opp: seq<BookOrder>, n: nat, rs: seq<Response>)
    requires opp != [] && Crosses(inc.side, inc.price, opp[0].price) && 0 < opp[0].qty < inc.qty
    requires Reports(ticker, inc.(qty := inc.qty - opp[0].qty), opp[1..], n, rs)
    ensures Reports(ticker, inc, opp, n + 1, FillPair(ticker, inc, opp[0], opp[0].qty) + rs)
  {
    var all := FillPair(ticker, inc, opp[0], opp[0].qty) + rs;
    var inc' := inc.(qty := inc.qty - opp[0].qty);
    forall i | 0 <= i < n + 1
      ensures ReportAt(ticker, inc, opp, i, all)
    {
      if i == 0 {
        assert Depth(opp, 0) == 0;
      } else {
        assert ReportAt(ticker, inc', opp[1..], i - 1, rs);
        TakenTail(inc, opp, i);
        assert all[2 * i] == rs[2 * (i - 1)] && all[2 * i + 1] == rs[2 * (i - 1) + 1];
      }
    }
  }

  lemma AnnouncesShift(ticker: nat, inc: BookOrder, opp: seq<BookOrder>, n: nat, us: seq<Update>)
    requires opp != [] && Crosses(inc.side, inc.price, opp[0].price) && 0 < opp[0].qty < inc.qty
    requires Announces(ticker, inc.(qty := inc.qty - opp[0].qty), opp[1..], n, us)
    ensures Announces(ticker, inc, opp, n + 1, FillUpdates(ticker, inc, opp[0], opp[0].qty) + us)
  {
    var all := FillUpdates(ticker, inc, opp[0], opp[0].qty) + us;
    var inc' := inc.(qty := inc.qty - opp[0].qty);
    forall i | 0 <= i < n + 1
      ensures AnnouncedAt(ticker, inc, opp, i, all)
    {
      if i == 0 {
        assert Depth(opp, 0) == 0;
      } else {
        assert AnnouncedAt(ticker, inc', opp[1..], i - 1, us);
        TakenTail(inc, opp, i);
        assert all[2 * i] == us[2 * (i - 1)] && all[2 * i + 1] == us[2 * (i - 1) + 1];
      }
    }
  }

  lemma SurvivorsShift(inc: BookOrder, opp: seq<BookOrder>, n: nat)
    requires opp != [] && 0 < opp[0].qty < inc.qty && n < |opp|
    requires Crosses(inc.side, inc.price, opp[0].price)
    ensures Survivors(inc, opp, n + 1) == Survivors(inc.(qty := inc.qty - opp[0].qty), opp[1..], n)
  {
    assert opp[1..][n..] == opp[n + 1..];
    if n == 0 {
      assert Depth(opp, 0) == 0 && Taken(inc, opp, 0) == opp[0].qty;
    } else {
      TakenTail(inc, opp, n);
    }
  }

  lemma {:induction false} MatchReports(ticker: nat, inc: BookOrder, opp: seq<BookOrder>)
    requires Live(Opposite(inc.side), opp)
    ensures Reports(ticker, inc, opp, Fills(inc, opp), MatchAll(ticker, inc, opp).responses)
    decreases |opp|
  {
    hide MatchAll, FillUpdates;
    if !Trades(inc, opp) {
      MatchStops(ticker, inc, opp);
    } else if inc.qty <= opp[0].qty {
      assert Depth(opp, 0) == 0;
      OneFill(ticker, inc, opp);
    } else {
      var inc' := inc.(qty := inc.qty - opp[0].qty);
      MatchGoesOn(ticker, inc, opp);
      MatchReports(ticker, inc', opp[1..]);
      ReportsShift(ticker, inc, opp, Fills(inc', opp[1..]), MatchAll(ticker, inc', opp[1..]).responses);
    }
  }

  lemma {:induction false} MatchUpdates(ticker: nat, inc: BookOrder, opp: seq<BookOrder>)
    requires Live(Opposite(inc.side), opp)
    ensures Announces(ticker, inc, opp, Fills(inc, opp), MatchAll(ticker, inc, opp).updates)
    decreases |opp|
  {
    hide MatchAll, FillPair;
    if !Trades(inc, opp) {
      MatchStops(ticker, inc, opp);
    } else if inc.qty <= opp[0].qty {
      assert Depth(opp, 0) == 0;
      OneFill(ticker, inc, opp);
    } else {
      var inc' := inc.(qty := inc.qty - opp[0].qty);
      MatchGoesOn(ticker, inc, opp);
      MatchUpdates(ticker, inc', opp[1..]);
      AnnouncesShift(ticker, inc, opp, Fills(inc', opp[1..]), MatchAll(ticker, inc', opp[1..]).updates);
    }
  }

  lemma {:induction false} MatchRest(ticker: nat, inc: BookOrder, opp: seq<BookOrder>)
    requires Live(Opposite(inc.side), opp)
    ensures MatchAll(ticker, inc, opp).rest == Survivors(inc, opp, Fills(inc, opp))
    decreases |opp|
  {
    hide MatchAll, FillPair, FillUpdates;
    if !Trades(inc, opp) {
      MatchStops(ticker, inc, opp);
    } else if inc.qty <= opp[0].qty {
      OneFill(ticker, inc, opp);
    } else {
      var inc' := inc.(qty := inc.qty - opp[0].qty);
      MatchGoesOn(ticker, inc, opp);
      MatchRest(ticker, inc', opp[1..]);
      SurvivorsShift(inc, opp, Fills(inc', opp[1..]));
    }
  }

  lemma {:induction false} MatchLeaves(ticker: nat, inc: BookOrder, opp: seq<BookOrder>)
    requires Live(Opposite(inc.side), opp)
    ensures var n := Fills(inc, opp);
            var leaves := MatchAll(ticker, inc, opp).leaves;
            && leaves == (if inc.qty <= Depth(opp, n) then 0 else inc.qty - Depth(opp, n))
            && (leaves > 0 ==> n == |opp| || !Crosses(inc.side, inc.price, opp[n].price))
    decreases |opp|
  {
    hide MatchAll, FillPair, FillUpdates;
    if !Trades(inc, opp) {
      MatchStops(ticker, inc, opp);
    } else if inc.qty <= opp[0].qty {
      assert Depth(opp, 0) == 0 && Depth(opp, 1) == opp[0].qty;
      OneFill(ticker, inc, opp);
    } else {
      var inc' := inc.(qty := inc.qty - opp[0].qty);
      MatchGoesOn(ticker, inc, opp);
      MatchLeaves(ticker, inc', opp[1..]);
      DepthTail(opp, Fills(inc, opp));
    }
  }

  /** Price-time priority. The matching loop does what the closed form says: it reports, in order
      of priority, one pair of fills for each of the first `Fills` resting orders, at the resting
      price and for the quantity `Taken`; it leaves the survivors in place; exactly the orders
      that cross and are reached trade, all in full except perhaps the last; and it stops early
      only because nothing that is left crosses. */
  lemma PriceTimePriority(ticker: nat, inc: BookOrder, opp: seq<BookOrder>)
    requires IsTradeSide(inc.side) && Sorted(Opposite(inc.side), opp) && Live(Opposite(inc.side), opp)
    ensures Reports(ticker, inc, opp, Fills(inc, opp), MatchAll(ticker, inc, opp).responses)
    ensures Announces(ticker, inc, opp, Fills(inc, opp), MatchAll(ticker, inc, opp).updates)
    ensures MatchAll(ticker, inc, opp).rest == Survivors(inc, opp, Fills(inc, opp))
    ensures forall i :: 0 <= i < |opp| ==> (Taken(inc, opp, i) > 0 <==> i < Fills(inc, opp))
    ensures forall i :: 0 <= i < Fills(inc, opp) - 1 ==> Taken(inc, opp, i) == opp[i].qty
    ensures MatchAll(ticker, inc, opp).leaves > 0 ==>
              forall i :: Fills(inc, opp) <= i < |opp| ==> !Affords(inc, opp[i].price)
  {
    MatchReports(ticker, inc, opp);
    MatchUpdates(ticker, inc, opp);
    MatchRest(ticker, inc, opp);
    MatchLeaves(ticker, inc, opp);
    FillsArePrefix(inc, opp);
    var n := Fills(inc, opp);
    if MatchAll(ticker, inc, opp).leaves > 0 {
      forall i | n <= i < |opp|
        ensures !Crosses(inc.side, inc.price, opp[i].price)
      {
        if Crosses(inc.side, inc.price, opp[i].price) {
          CrossingIsAPrefix(inc, opp, n, i);
        }
      }
    }
  }
}
