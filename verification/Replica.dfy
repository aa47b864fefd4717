/** The client's copy of a book, built from market updates alone, and the proof that it follows
    the exchange's book update by update. */
module Replica {
  import opened Common
  import opened Ladder
  import opened Matching
  import opened BookInvariant

  /** A client knows an order only by its market order id. */
  type SeenOrder = Order<nat>

  datatype View = View(bids: seq<SeenOrder>, asks: seq<SeenOrder>)
  {
    function On(side: Side): seq<SeenOrder> {
      if side == BUY then bids else asks
    }

    function With(side: Side, s: seq<SeenOrder>): View {
      if side == BUY then this.(bids := s) else this.(asks := s)
    }
  }

  const EMPTY_VIEW := View([], [])

  function Announced(u: Update): SeenOrder {
    Order(u.oid, u.oid, u.side, u.price, u.qty, u.priority)
  }

  /** The effect of one market update on the copy of instrument `t`. */
  function Apply(t: nat, v: View, u: Update): View {
    if u.ticker != t then v
    else match u.kind
      case ADD => v.With(u.side, Enqueue(v.On(u.side), Announced(u)))
      case MODIFY => View(Resize(v.bids, u.oid, u.qty), Resize(v.asks, u.oid, u.qty))
      case REMOVE => View(Drop(v.bids, u.oid), Drop(v.asks, u.oid))
      case CLEAR => EMPTY_VIEW
      case TRADE => v
      case SNAPSHOT_START => v
      case SNAPSHOT_END => v
  }

  function ApplyAll(t: nat, v: View, us: seq<Update>): View
    decreases |us|
  {
    if us == [] then v else Apply(t, ApplyAll(t, v, us[..|us| - 1]), us[|us| - 1])
  }

  /** The book a client ends up with after `us`. */
  function Replay(t: nat, us: seq<Update>): View {
    ApplyAll(t, EMPTY_VIEW, us)
  }

  lemma {:induction false} ApplyAppend(t: nat, v: View, a: seq<Update>, b: seq<Update>)
    ensures ApplyAll(t, v, a + b) == ApplyAll(t, ApplyAll(t, v, a), b)
    decreases |b|
  {
    if b == [] {
      assert a + b == a;
    } else {
      var n := |b| - 1;
      assert (a + b)[..|a + b| - 1] == a + b[..n];
      ApplyAppend(t, v, a, b[..n]);
    }
  }

  lemma ApplyOne(t: nat, v: View, us: seq<Update>, u: Update)
    ensures ApplyAll(t, v, us + [u]) == Apply(t, ApplyAll(t, v, us), u)
  {
    assert (us + [u])[..|us + [u]| - 1] == us;
  }

  lemma OtherUnmoved(t: nat, v: View, u: Update)
    requires u.ticker != t
    ensures Apply(t, v, u) == v
  {
  }

  lemma ApplyTwo(t: nat, v: View, u: Update, w: Update)
    ensures ApplyAll(t, v, [u, w]) == Apply(t, Apply(t, v, u), w)
  {
    assert [u, w][..1] == [u];
    assert ApplyAll(t, v, [u]) == Apply(t, v, u);
  }

  // ----- what the exchange's book looks like from outside -----

  function Seen(o: BookOrder): SeenOrder {
    Order(o.oid, o.oid, o.side, o.price, o.qty, o.priority)
  }

  function SeenSide(s: seq<BookOrder>): (r: seq<SeenOrder>)
    ensures |r| == |s|
    ensures forall i :: 0 <= i < |s| ==> r[i] == Seen(s[i])
  {
    seq(|s|, i requires 0 <= i < |s| => Seen(s[i]))
  }

  function Outside(b: Book): View {
    View(SeenSide(b.bids), SeenSide(b.asks))
  }

  lemma SeenSideSplit(a: seq<BookOrder>, b: seq<BookOrder>)
    ensures SeenSide(a + b) == SeenSide(a) + SeenSide(b)
  {
  }

  lemma SeenEnqueue(s: seq<BookOrder>, o: BookOrder)
    requires Sorted(o.side, s)
    ensures SeenSide(Enqueue(s, o)) == Enqueue(SeenSide(s), Seen(o))
  {
    EnqueueSlot(s, o);
    var k := Slot(s, o);
    var a, b := SeenSide(s[..k]), SeenSide(s[k..]);
    EnqueueAt(a, b, Seen(o));
    assert SeenSide(s) == a + b by {
      assert s == s[..k] + s[k..];
      SeenSideSplit(s[..k], s[k..]);
    }
    assert SeenSide(s[..k] + [o] + s[k..]) == a + [Seen(o)] + b by {
      SeenSideSplit(s[..k] + [o], s[k..]);
      SeenSideSplit(s[..k], [o]);
      assert SeenSide([o]) == [Seen(o)];
    }
  }

  lemma SeenDrop(s: seq<BookOrder>, k: nat)
    requires k < |s| && DistinctIds(s)
    ensures Drop(SeenSide(s), s[k].oid) == SeenSide(s[..k] + s[k + 1..])
  {
    var a, b := s[..k], s[k + 1..];
    assert SeenSide(s) == SeenSide(a) + [Seen(s[k])] + SeenSide(b);
    DropAt(SeenSide(a), Seen(s[k]), SeenSide(b));
    SeenSideSplit(a, b);
  }

  lemma SeenResizeFirst(s: seq<BookOrder>, qty: nat)
    requires s != []
    ensures Resize(SeenSide(s), s[0].oid, qty) == SeenSide([s[0].(qty := qty)] + s[1..])
  {
    assert SeenSide(s)[1..] == SeenSide(s[1..]);
  }

  /** No order of `s` has market id `oid`. */
  ghost predicate Unseen(s: seq<BookOrder>, oid: nat) {
    forall i :: 0 <= i < |s| ==> s[i].oid != oid
  }

  lemma UnseenUntouched(s: seq<BookOrder>, oid: nat, qty: nat)
    requires Unseen(s, oid)
    ensures Drop(SeenSide(s), oid) == SeenSide(s) && Resize(SeenSide(s), oid, qty) == SeenSide(s)
  {
    DropAbsent(SeenSide(s), oid);
    ResizeAbsent(SeenSide(s), oid, qty);
  }

  /** A removal announced for position `k` of one side removes it from the copy. */
  lemma RemoveFollows(t: nat, v: View, side: Side, s: seq<BookOrder>, own: seq<BookOrder>, k: nat, u: Update)
    requires IsTradeSide(side) && v.On(side) == SeenSide(s) && v.On(Opposite(side)) == SeenSide(own)
    requires k < |s| && DistinctIds(s) && Unseen(own, s[k].oid)
    requires u.ticker == t && u.kind == REMOVE && u.oid == s[k].oid
    ensures Apply(t, v, u) == v.With(side, SeenSide(s[..k] + s[k + 1..]))
  {
    SeenDrop(s, k);
    UnseenUntouched(own, u.oid, 0);
  }

  lemma ModifyFollows(t: nat, v: View, side: Side, s: seq<BookOrder>, own: seq<BookOrder>, u: Update)
    requires IsTradeSide(side) && v.On(side) == SeenSide(s) && v.On(Opposite(side)) == SeenSide(own)
    requires s != [] && Unseen(own, s[0].oid)
    requires u.ticker == t && u.kind == MODIFY && u.oid == s[0].oid
    ensures Apply(t, v, u) == v.With(side, SeenSide([s[0].(qty := u.qty)] + s[1..]))
  {
    SeenResizeFirst(s, u.qty);
    UnseenUntouched(own, u.oid, u.qty);
  }

  /** Every update the matching loop sends keeps the copy of the opposite side in step. */
  lemma {:induction false} MatchFollows(t: nat, inc: BookOrder, v: View, opp: seq<BookOrder>, own: seq<BookOrder>)
    requires IsTradeSide(inc.side)
    requires v.On(Opposite(inc.side)) == SeenSide(opp) && v.On(inc.side) == SeenSide(own)
    requires DistinctIds(opp) && forall i :: 0 <= i < |opp| ==> Unseen(own, opp[i].oid)
    ensures ApplyAll(t, v, MatchAll(t, inc, opp).updates)
         == v.With(Opposite(inc.side), SeenSide(MatchAll(t, inc, opp).rest))
    decreases |opp|
  {
    hide MatchAll, FillPair, FillUpdates, Drop, Resize, Enqueue;
    if !Trades(inc, opp) {
      MatchStops(t, inc, opp);
    } else if inc.qty < opp[0].qty {
      MatchFollowsPartial(t, inc, v, opp, own);
    } else {
      var v' := v.With(Opposite(inc.side), SeenSide(opp[1..]));
      var inc' := inc.(qty := inc.qty - opp[0].qty);
      MatchGoesOn(t, inc, opp);
      FullFillFollows(t, inc, v, opp, own);
      MatchFollows(t, inc', v', opp[1..], own);
      ApplyAppend(t, v, FillUpdates(t, inc, opp[0], opp[0].qty), MatchAll(t, inc', opp[1..]).updates);
    }
  }

  lemma FullFillFollows(t: nat, inc: BookOrder, v: View, opp: seq<BookOrder>, own: seq<BookOrder>)
    requires IsTradeSide(inc.side)
    requires v.On(Opposite(inc.side)) == SeenSide(opp) && v.On(inc.side) == SeenSide(own)
    requires opp != [] && DistinctIds(opp) && Unseen(own, opp[0].oid)
    ensures ApplyAll(t, v, FillUpdates(t, inc, opp[0], opp[0].qty)) == v.With(Opposite(inc.side), SeenSide(opp[1..]))
  {
    hide Drop, Resize, Enqueue, SeenSide, ApplyAll;
    var trade, remove := TradeUpdate(t, inc.side, opp[0].price, opp[0].qty), FilledUpdate(t, opp[0]);
    assert FillUpdates(t, inc, opp[0], opp[0].qty) == [trade, remove];
    ApplyTwo(t, v, trade, remove);
    RemoveFollows(t, v, Opposite(inc.side), opp, own, 0, remove);
    assert opp[..0] + opp[1..] == opp[1..];
  }

  lemma MatchFollowsPartial(t: nat, inc: BookOrder, v: View, opp: seq<BookOrder>, own: seq<BookOrder>)
    requires IsTradeSide(inc.side)
    requires v.On(Opposite(inc.side)) == SeenSide(opp) && v.On(inc.side) == SeenSide(own)
    requires opp != [] && Unseen(own, opp[0].oid)
    requires Crosses(inc.side, inc.price, opp[0].price) && 0 < inc.qty < opp[0].qty
    ensures ApplyAll(t, v, MatchAll(t, inc, opp).updates)
         == v.With(Opposite(inc.side), SeenSide(MatchAll(t, inc, opp).rest))
  {
    hide MatchAll, Drop, Resize, Enqueue, SeenSide, ApplyAll;
    var trade := TradeUpdate(t, inc.side, opp[0].price, inc.qty);
    var reduce := ReducedUpdate(t, opp[0], opp[0].qty - inc.qty);
    assert FillUpdates(t, inc, opp[0], inc.qty) == [trade, reduce];
    MatchEndsInside(t, inc, opp);
    ApplyTwo(t, v, trade, reduce);
    ModifyFollows(t, v, Opposite(inc.side), opp, own, reduce);
  }

  lemma FacingUnseen(b: Book, side: Side)
    requires Good(b) && IsTradeSide(side)
    ensures forall i :: 0 <= i < |b.On(side)| ==> Unseen(b.On(Opposite(side)), b.On(side)[i].oid)
  {
    GoodFromEither(b, side);
    forall i | 0 <= i < |b.On(side)|
      ensures Unseen(b.On(Opposite(side)), b.On(side)[i].oid)
    {
      forall j | 0 <= j < |b.On(Opposite(side))|
        ensures b.On(Opposite(side))[j].oid != b.On(side)[i].oid
      {
        assert Clear(side, b.On(side)[i], b.On(Opposite(side))[j]);
      }
    }
  }

  lemma AddFollows(b: Book, t: nat, ref: OrderRef, side: Side, price: int, qty: nat)
    requires Good(b) && IsTradeSide(side)
    ensures var s := Add(b, t, ref, side, price, qty);
            ApplyAll(t, Outside(b), s.updates) == Outside(s.book)
  {
    hide MatchAll, Enqueue, NextPriority, SeenSide, ApplyAll, Apply;
    var inc := Incoming(b, ref, side, price, qty);
    var own, opp := b.On(side), b.On(Opposite(side));
    var m := MatchAll(t, inc, opp);
    FacingUnseen(b, Opposite(side));
    GoodFromEither(b, Opposite(side));
    MatchFollows(t, inc, Outside(b), opp, own);
    if m.leaves > 0 {
      var o := inc.(qty := m.leaves, priority := NextPriority(own, price));
      ApplyAppend(t, Outside(b), m.updates, [AddedUpdate(t, o)]);
      AddedFollows(t, Outside(b).With(Opposite(side), SeenSide(m.rest)), own, o);
    }
  }

  /** The announcement of an order that comes to rest puts it into the copy of its side. */
  lemma AddedFollows(t: nat, v: View, own: seq<BookOrder>, o: BookOrder)
    requires IsTradeSide(o.side) && Sorted(o.side, own) && v.On(o.side) == SeenSide(own)
    ensures ApplyAll(t, v, [AddedUpdate(t, o)]) == v.With(o.side, SeenSide(Enqueue(own, o)))
  {
    hide Enqueue, SeenSide, ApplyAll;
    SeenEnqueue(own, o);
    ApplyOne(t, v, [], AddedUpdate(t, o));
    NoUpdates(t, v);
    assert [] + [AddedUpdate(t, o)] == [AddedUpdate(t, o)];
  }

  lemma NoUpdates(t: nat, v: View)
    ensures ApplyAll(t, v, []) == v
  {
  }

  lemma CancelFollows(b: Book, t: nat, ref: OrderRef)
    requires Good(b)
    ensures var s := Cancel(b, t, ref);
            ApplyAll(t, Outside(b), s.updates) == Outside(s.book)
  {
    match Lookup(b, ref)
    case None =>
    case Some(o) =>
      var k := LookupFinds(b, ref);
      var s := b.On(o.side);
      FacingUnseen(b, o.side);
      DropCuts(s, k);
      RemoveFollows(t, Outside(b), o.side, s, b.On(Opposite(o.side)), k, CanceledUpdate(t, o));
      assert ApplyAll(t, Outside(b), [CanceledUpdate(t, o)]) == Apply(t, Outside(b), CanceledUpdate(t, o));
  }

  /** Replication refines matching, one request at a time. */
  lemma ProcessFollows(b: Book, r: Request)
    requires Good(b) && Admissible(b, r)
    ensures ApplyAll(r.ticker, Outside(b), Process(b, r).updates) == Outside(Process(b, r).book)
  {
    match r.kind
    case NEW => AddFollows(b, r.ticker, r.ref, r.side, r.price, r.qty);
    case CANCEL => CancelFollows(b, r.ticker, r.ref);
  }
}
