/** Whatever sequence of admissible requests a book receives, both sides stay sorted by price and
    time, every name stays unique, and the best bid stays below the best ask. */
module BookInvariant {
  import opened Common
  import opened Ladder
  import opened Matching

  /** `rest` is a final stretch of `opp`, with quantities at most reduced. */
  ghost predicate Remainder(rest: seq<BookOrder>, opp: seq<BookOrder>) {
    && |rest| <= |opp|
    && forall i :: 0 <= i < |rest| ==> Reduced(rest[i], opp[|opp| - |rest| + i])
  }

  predicate Reduced(r: BookOrder, o: BookOrder) {
    r == o.(qty := r.qty) && 0 < r.qty <= o.qty
  }

  lemma RemainderOfTail(rest: seq<BookOrder>, opp: seq<BookOrder>)
    requires opp != [] && Remainder(rest, opp[1..])
    ensures Remainder(rest, opp)
  {
    forall i | 0 <= i < |rest|
      ensures Reduced(rest[i], opp[|opp| - |rest| + i])
    {
      assert Reduced(rest[i], opp[1..][|opp| - 1 - |rest| + i]);
    }
  }

  lemma {:induction false} MatchLeavesRemainder(ticker: nat, inc: BookOrder, opp: seq<BookOrder>)
    requires Live(Opposite(inc.side), opp)
    ensures Remainder(MatchAll(ticker, inc, opp).rest, opp)
    decreases |opp|
  {
    hide MatchAll, FillPair, FillUpdates;
    if !Trades(inc, opp) {
      MatchStops(ticker, inc, opp);
    } else if opp[0].qty <= inc.qty {
      var inc' := inc.(qty := inc.qty - opp[0].qty);
      MatchGoesOn(ticker, inc, opp);
      MatchLeavesRemainder(ticker, inc', opp[1..]);
      RemainderOfTail(MatchAll(ticker, inc', opp[1..]).rest, opp);
    } else {
      MatchEndsInside(ticker, inc, opp);
    }
  }

  lemma RemainderKeeps(side: Side, rest: seq<BookOrder>, opp: seq<BookOrder>, next: nat)
    requires GoodSide(side, opp, next) && Remainder(rest, opp)
    ensures GoodSide(side, rest, next)
  {
    var d := |opp| - |rest|;
    forall i, j | 0 <= i < j < |rest|
      ensures Ahead(side, rest[i], rest[j]) && rest[i].key != rest[j].key && rest[i].oid != rest[j].oid
    {
      assert Ahead(side, opp[d + i], opp[d + j]);
    }
  }

  lemma MatchStopsUncrossed(ticker: nat, inc: BookOrder, opp: seq<BookOrder>)
    requires IsTradeSide(inc.side) && Sorted(Opposite(inc.side), opp) && Live(Opposite(inc.side), opp)
    requires MatchAll(ticker, inc, opp).leaves > 0
    ensures forall i :: 0 <= i < |MatchAll(ticker, inc, opp).rest| ==>
              !Crosses(inc.side, inc.price, MatchAll(ticker, inc, opp).rest[i].price)
  {
    PriceTimePriority(ticker, inc, opp);
    MatchLeaves(ticker, inc, opp);
    var n := Fills(inc, opp);
    if n > 0 {
      assert Depth(opp, n) == Depth(opp, n - 1) + opp[n - 1].qty;
      assert Taken(inc, opp, n - 1) == opp[n - 1].qty;
    }
  }

  lemma FacingFlip(side: Side, own: seq<BookOrder>, opp: seq<BookOrder>)
    requires IsTradeSide(side) && Facing(side, own, opp)
    ensures Facing(Opposite(side), opp, own)
  {
    forall i, j | 0 <= i < |opp| && 0 <= j < |own|
      ensures Clear(Opposite(side), opp[i], own[j])
    {
      assert Clear(side, own[j], opp[i]);
    }
  }

  /** `Good` as seen from either side. */
  ghost predicate GoodFrom(b: Book, side: Side) {
    && GoodSide(side, b.On(side), b.nextOid)
    && GoodSide(Opposite(side), b.On(Opposite(side)), b.nextOid)
    && Facing(side, b.On(side), b.On(Opposite(side)))
  }

  lemma GoodFromEither(b: Book, side: Side)
    requires IsTradeSide(side)
    ensures Good(b) <==> GoodFrom(b, side)
  {
    if side == SELL {
      if Good(b) {
        FacingFlip(BUY, b.bids, b.asks);
      }
      if GoodFrom(b, side) {
        FacingFlip(SELL, b.asks, b.bids);
      }
    }
  }

  lemma RemainderFacing(side: Side, own: seq<BookOrder>, rest: seq<BookOrder>, opp: seq<BookOrder>)
    requires Facing(side, own, opp) && Remainder(rest, opp)
    ensures Facing(side, own, rest)
  {
    forall i, j | 0 <= i < |own| && 0 <= j < |rest|
      ensures Clear(side, own[i], rest[j])
    {
      assert Clear(side, own[i], opp[|opp| - |rest| + j]);
    }
  }

  lemma EnqueueFacing(own: seq<BookOrder>, opp: seq<BookOrder>, o: BookOrder)
    requires Sorted(o.side, own) && Facing(o.side, own, opp)
    requires forall j :: 0 <= j < |opp| ==> Clear(o.side, o, opp[j])
    ensures Facing(o.side, Enqueue(own, o), opp)
  {
    EnqueueSlot(own, o);
    var r, k := Enqueue(own, o), Slot(own, o);
    forall i, j | 0 <= i < |r| && 0 <= j < |opp|
      ensures Clear(o.side, r[i], opp[j])
    {
      assert i != k ==> r[i] == own[if i < k then i else i - 1];
    }
  }

  lemma EnqueueIds(own: seq<BookOrder>, o: BookOrder)
    requires Sorted(o.side, own) && DistinctIds(own) && Older(own, o.oid)
    ensures DistinctIds(Enqueue(own, o)) && Older(Enqueue(own, o), o.oid + 1)
  {
    EnqueueSlot(own, o);
    var r, k := Enqueue(own, o), Slot(own, o);
    forall i, j | 0 <= i < j < |r|
      ensures r[i].oid != r[j].oid
    {
      assert i != k ==> r[i] == own[if i < k then i else i - 1];
      assert j != k ==> r[j] == own[if j < k then j else j - 1];
    }
    forall i | 0 <= i < |r|
      ensures r[i].oid < o.oid + 1
    {
      assert i != k ==> r[i] == own[if i < k then i else i - 1];
    }
  }

  lemma EnqueueGoodSide(own: seq<BookOrder>, o: BookOrder)
    requires IsTradeSide(o.side) && o.qty > 0
    requires GoodSide(o.side, own, o.oid)
    requires o.priority == NextPriority(own, o.price)
    requires forall i :: 0 <= i < |own| ==> own[i].key != o.key
    ensures GoodSide(o.side, Enqueue(own, o), o.oid + 1)
  {
    NextPriorityTops(own, o.side, o.price);
    EnqueueKeeps(own, o);
    EnqueueIds(own, o);
  }

  /** What matching leaves of the opposite side, and the order that then rests, are good. */
  lemma AddKeepsGood(b: Book, ticker: nat, ref: OrderRef, side: Side, price: int, qty: nat)
    requires Good(b) && IsTradeSide(side) && Lookup(b, ref) == None
    ensures Good(Add(b, ticker, ref, side, price, qty).book)
  {
    hide MatchAll, Enqueue, Good, Facing, Remainder, Find;
    GoodFromEither(b, side);
    var inc := Incoming(b, ref, side, price, qty);
    var own, opp := b.On(side), b.On(Opposite(side));
    var m := MatchAll(ticker, inc, opp);
    MatchLeavesRemainder(ticker, inc, opp);
    RemainderKeeps(Opposite(side), m.rest, opp, b.nextOid);
    RemainderFacing(side, own, m.rest, opp);
    var b' := Add(b, ticker, ref, side, price, qty).book;
    if m.leaves > 0 {
      var o := inc.(qty := m.leaves, priority := NextPriority(own, price));
      assert forall i :: 0 <= i < |own| ==> own[i] in own;
      EnqueueGoodSide(own, o);
      MatchStopsUncrossed(ticker, inc, opp);
      FreshFacing(b, m.rest, o);
      EnqueueFacing(own, m.rest, o);
      assert b'.On(side) == Enqueue(own, o) && b'.On(Opposite(side)) == m.rest;
    }
    assert GoodFrom(b', side);
    GoodFromEither(b', side);
  }

  lemma FreshFacing(b: Book, rest: seq<BookOrder>, o: BookOrder)
    requires IsTradeSide(o.side) && Remainder(rest, b.On(Opposite(o.side))) && Lookup(b, o.key) == None
    requires Older(b.On(Opposite(o.side)), o.oid)
    requires forall i :: 0 <= i < |rest| ==> !Crosses(o.side, o.price, rest[i].price)
    ensures forall j :: 0 <= j < |rest| ==> Clear(o.side, o, rest[j])
  {
    var opp := b.On(Opposite(o.side));
    forall j | 0 <= j < |rest|
      ensures Clear(o.side, o, rest[j])
    {
      assert opp[|opp| - |rest| + j] in opp;
    }
  }

  lemma LookupFinds(b: Book, ref: OrderRef) returns (k: nat)
    requires Good(b) && Lookup(b, ref).Some?
    ensures var o := Lookup(b, ref).value;
            IsTradeSide(o.side) && k < |b.On(o.side)| && b.On(o.side)[k] == o
  {
    k := match Find(b.bids, ref)
         case Some(i) => i
         case None => Find(b.asks, ref).value;
  }

  lemma CutGoodSide(side: Side, s: seq<BookOrder>, k: nat, next: nat)
    requires GoodSide(side, s, next) && k < |s|
    ensures GoodSide(side, s[..k] + s[k + 1..], next)
  {
    CutKeeps(side, s, k);
    var r := s[..k] + s[k + 1..];
    assert forall i :: 0 <= i < |r| ==> r[i] == s[if i < k then i else i + 1];
  }

  lemma CutFacing(side: Side, own: seq<BookOrder>, opp: seq<BookOrder>, k: nat)
    requires Facing(side, own, opp) && k < |own|
    ensures Facing(side, own[..k] + own[k + 1..], opp)
  {
    var r := own[..k] + own[k + 1..];
    forall i, j | 0 <= i < |r| && 0 <= j < |opp|
      ensures Clear(side, r[i], opp[j])
    {
      assert r[i] == own[if i < k then i else i + 1];
    }
  }

  lemma CancelKeepsGood(b: Book, ticker: nat, ref: OrderRef)
    requires Good(b)
    ensures Good(Cancel(b, ticker, ref).book)
  {
    match Lookup(b, ref)
    case None =>
    case Some(o) =>
      var k := LookupFinds(b, ref);
      GoodFromEither(b, o.side);
      var s := b.On(o.side);
      DropCuts(s, k);
      CutGoodSide(o.side, s, k, b.nextOid);
      CutFacing(o.side, s, b.On(Opposite(o.side)), k);
      GoodFromEither(Cancel(b, ticker, ref).book, o.side);
  }

  lemma ProcessKeepsGood(b: Book, r: Request)
    requires Good(b) && Admissible(b, r)
    ensures Good(Process(b, r).book)
  {
    match r.kind
    case NEW => AddKeepsGood(b, r.ticker, r.ref, r.side, r.price, r.qty);
    case CANCEL => CancelKeepsGood(b, r.ticker, r.ref);
  }

  ghost predicate AllFor(t: nat, us: seq<Update>) {
    forall i :: 0 <= i < |us| ==> us[i].ticker == t
  }

  ghost predicate AllAbout(t: nat, rs: seq<Response>) {
    forall i :: 0 <= i < |rs| ==> rs[i].ticker == t
  }

  lemma {:induction false} MatchTicker(t: nat, inc: BookOrder, opp: seq<BookOrder>)
    ensures AllAbout(t, MatchAll(t, inc, opp).responses) && AllFor(t, MatchAll(t, inc, opp).updates)
    decreases |opp|
  {
    if inc.qty == 0 || opp == [] || !Crosses(inc.side, inc.price, opp[0].price) {
    } else if opp[0].qty <= inc.qty {
      MatchTicker(t, inc.(qty := inc.qty - opp[0].qty), opp[1..]);
    }
  }

  /** Everything sent for a request carries the request's instrument. */
  lemma ProcessTicker(b: Book, r: Request)
    ensures AllAbout(r.ticker, Process(b, r).responses) && AllFor(r.ticker, Process(b, r).updates)
  {
    if r.kind == NEW {
      MatchTicker(r.ticker, Incoming(b, r.ref, r.side, r.price, r.qty), b.On(Opposite(r.side)));
    }
  }
}
