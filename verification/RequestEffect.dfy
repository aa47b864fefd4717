/** What one request does to a book and everything that is sent for it, in full: read off the book and the
    request alone. */
module RequestEffect {
  import opened Common
  import opened Ladder
  import opened Matching
  import opened BookInvariant

  ghost predicate LastAt(s: seq<BookOrder>, price: int, i: nat)
    requires i < |s|
  {
    s[i].price == price && forall j :: i < j < |s| ==> s[j].price != price
  }

  /** `p` is one more than the priority of the last order at the price, or 1 if there is none. */
  ghost predicate NextInLine(s: seq<BookOrder>, price: int, p: nat) {
    || (p == 1 && forall i :: 0 <= i < |s| ==> s[i].price != price)
    || exists i :: 0 <= i < |s| && LastAt(s, price, i) && p == s[i].priority + 1
  }

  ghost predicate JoinsAt(before: seq<BookOrder>, o: BookOrder, k: nat, after: seq<BookOrder>)
    requires k <= |before|
  {
    && after == before[..k] + [o] + before[k..]
    && (forall i :: 0 <= i < k ==>
          if o.side == BUY then before[i].price >= o.price else before[i].price <= o.price)
    && (forall i :: k <= i < |before| ==>
          if o.side == BUY then before[i].price < o.price else before[i].price > o.price)
  }

  /** `after` is `before` with `o` behind everything priced at least as well and in front of all the rest. */
  ghost predicate Joins(before: seq<BookOrder>, o: BookOrder, after: seq<BookOrder>) {
    exists k :: 0 <= k <= |before| && JoinsAt(before, o, k, after)
  }

  /** What is left of quantity `qty` when `depth` stood in front of it. */
  function Left(qty: nat, depth: nat): nat {
    if qty <= depth then 0 else qty - depth
  }

  ghost predicate RestsWith(b: Book, r: Request, left: nat, after: seq<BookOrder>, u: Update, p: nat) {
    && NextInLine(b.On(r.side), r.price, p)
    && Joins(b.On(r.side), Order(r.ref, b.nextOid, r.side, r.price, left, p), after)
    && u == Update(ADD, b.nextOid, r.ticker, r.side, r.price, left, p)
  }

  /** The order that came to rest, and what the market is told of it. */
  ghost predicate RestsAndIsAnnounced(b: Book, r: Request, left: nat, after: seq<BookOrder>, u: Update) {
    exists p: nat :: RestsWith(b, r, left, after, u, p)
  }

  lemma {:induction false} NextPriorityIs(s: seq<BookOrder>, price: int)
    ensures NextInLine(s, price, NextPriority(s, price))
  {
    if s != [] {
      var n := |s| - 1;
      if s[n].price == price {
        assert LastAt(s, price, n);
      } else {
        NextPriorityIs(s[..n], price);
        if i :| 0 <= i < n && LastAt(s[..n], price, i) && NextPriority(s, price) == s[..n][i].priority + 1 {
          assert LastAt(s, price, i);
        } else {
          assert forall i :: 0 <= i < n ==> s[i] == s[..n][i];
        }
      }
    }
  }

  lemma EnqueueJoins(s: seq<BookOrder>, o: BookOrder)
    requires IsTradeSide(o.side) && Sorted(o.side, s)
    ensures Joins(s, o, Enqueue(s, o))
  {
    EnqueueSlot(s, o);
    assert JoinsAt(s, o, Slot(s, o), Enqueue(s, o));
  }

  lemma OnlyPrefix(inc: BookOrder, opp: seq<BookOrder>, n: nat, k: nat)
    requires n <= |opp| && k <= |opp|
    requires forall i :: 0 <= i < |opp| ==> (Taken(inc, opp, i) > 0 <==> i < n)
    requires forall i :: 0 <= i < |opp| ==> (Taken(inc, opp, i) > 0 <==> i < k)
    ensures n == k
  {
    hide Taken;
    assert n < |opp| ==> (Taken(inc, opp, n) > 0 <==> n < k);
    assert k < |opp| ==> (Taken(inc, opp, k) > 0 <==> k < n);
  }

  lemma ReportsCount(ticker: nat, inc: BookOrder, opp: seq<BookOrder>, n: nat, rs: seq<Response>)
    requires Reports(ticker, inc, opp, n, rs)
    ensures |rs| == 2 * n
  {
  }

  lemma AnnouncesCount(ticker: nat, inc: BookOrder, opp: seq<BookOrder>, n: nat, us: seq<Update>)
    requires Announces(ticker, inc, opp, n, us)
    ensures |us| == 2 * n
  {
  }

  /** A new order. It is acknowledged with the next market id, its own side, limit and quantity. Then come
      the reports and updates of the orders that it trades with, which are the first ones within its limit,
      for as long as something of it is left. What is left rests behind everything priced at least as well,
      under the name, side, limit and instrument of the request, and is announced; nothing else changes. */
  lemma NewDoes(b: Book, r: Request, n: nat)
    requires Good(b) && Admissible(b, r) && r.kind == NEW
    requires var inc := Order(r.ref, b.nextOid, r.side, r.price, r.qty, 0);
             var opp := b.On(Opposite(r.side));
             n <= |opp| && forall i :: 0 <= i < |opp| ==> (Taken(inc, opp, i) > 0 <==> i < n)
    ensures var s, inc, opp := Process(b, r), Order(r.ref, b.nextOid, r.side, r.price, r.qty, 0),
                b.On(Opposite(r.side));
            var left := Left(r.qty, Depth(opp, n));
            && |s.responses| == 1 + 2 * n && s.book.nextOid == b.nextOid + 1
            && s.responses[0] == Response(ACCEPTED, r.ref, r.ticker, b.nextOid, r.side, r.price, 0, r.qty)
            && Reports(r.ticker, inc, opp, n, s.responses[1..])
            && s.book.On(Opposite(r.side)) == Survivors(inc, opp, n)
            && if left == 0 then
                 Announces(r.ticker, inc, opp, n, s.updates) && s.book.On(r.side) == b.On(r.side)
               else
                 && |s.updates| == 2 * n + 1 && Announces(r.ticker, inc, opp, n, s.updates[..2 * n])
                 && RestsAndIsAnnounced(b, r, left, s.book.On(r.side), s.updates[2 * n])
  {
    hide MatchAll, Enqueue, NextPriority, Reports, Announces, Survivors, Fills, Good, Lookup, Taken;
    GoodFromEither(b, r.side);
    var inc, own, opp := Incoming(b, r.ref, r.side, r.price, r.qty), b.On(r.side), b.On(Opposite(r.side));
    PriceTimePriority(r.ticker, inc, opp);
    OnlyPrefix(inc, opp, n, Fills(inc, opp));
    MatchLeaves(r.ticker, inc, opp);
    var m := MatchAll(r.ticker, inc, opp);
    var s := Process(b, r);
    assert s.responses[1..] == m.responses;
    ReportsCount(r.ticker, inc, opp, n, m.responses);
    if m.leaves > 0 {
      var o := inc.(qty := m.leaves, priority := NextPriority(own, r.price));
      AnnouncesCount(r.ticker, inc, opp, n, m.updates);
      assert s.updates[..2 * n] == m.updates;
      NextPriorityIs(own, r.price);
      EnqueueJoins(own, o);
      assert RestsWith(b, r, m.leaves, Enqueue(own, o), s.updates[2 * n], o.priority);
    }
  }

  lemma NamedIsFound(b: Book, side: Side, k: nat)
    requires Good(b) && IsTradeSide(side) && k < |b.On(side)|
    ensures Lookup(b, b.On(side)[k].key) == Some(b.On(side)[k]) && b.On(side)[k].side == side
  {
    hide Find;
    GoodFromEither(b, side);
    FindAt(b.On(side), k);
    if side == SELL {
      forall i | 0 <= i < |b.bids|
        ensures b.bids[i].key != b.asks[k].key
      {
        assert Clear(BUY, b.bids[i], b.asks[k]);
      }
      assert Find(b.bids, b.asks[k].key) == None;
    }
  }

  /** A cancel. If an order of that name rests it leaves its side and nothing else changes, its owner is
      told its id, side, price and what was left of it, and the market is told that it is gone. If none
      does, the sender is refused and nothing happens. */
  lemma CancelDoes(b: Book, r: Request)
    requires Good(b) && r.kind == CANCEL
    ensures var s := Process(b, r);
            && s.book.nextOid == b.nextOid
            && (forall side, k: nat :: IsTradeSide(side) && k < |b.On(side)| && b.On(side)[k].key == r.ref ==>
                  var o := b.On(side)[k];
                  && s.book.On(side) == b.On(side)[..k] + b.On(side)[k + 1..]
                  && s.book.On(Opposite(side)) == b.On(Opposite(side))
                  && s.responses
                     == [Response(CANCELED, r.ref, r.ticker, o.oid, side, o.price, QTY_INVALID, o.qty)]
                  && s.updates == [Update(REMOVE, o.oid, r.ticker, side, o.price, 0, o.priority)])
            && ((forall o :: o in b.bids || o in b.asks ==> o.key != r.ref) ==>
                  && s.book == b && s.updates == []
                  && s.responses == [Response(CANCEL_REJECTED, r.ref, r.ticker, ORDER_ID_INVALID, INVALID,
                                              PRICE_INVALID, QTY_INVALID, QTY_INVALID)])
  {
    hide Good, Drop, Lookup;
    forall side, k: nat | IsTradeSide(side) && k < |b.On(side)| && b.On(side)[k].key == r.ref
      ensures Lookup(b, r.ref) == Some(b.On(side)[k]) && b.On(side)[k].side == side
      ensures Drop(b.On(side), r.ref) == b.On(side)[..k] + b.On(side)[k + 1..]
    {
      NamedIsFound(b, side, k);
      GoodFromEither(b, side);
      DropCuts(b.On(side), k);
    }
  }
}
