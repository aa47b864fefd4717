/** What the exchange promises about its market updates: each one makes sense against the book
    that the earlier ones describe. */
module UpdateStream {
  import opened Common
  import opened Ladder
  import opened Matching
  import opened BookInvariant
  import opened Replica

  /** Position `k` of side `side` is the order that `u` talks about. */
  ghost predicate Names(v: View, u: Update, k: nat) {
    && IsTradeSide(u.side) && k < |v.On(u.side)|
    && v.On(u.side)[k].oid == u.oid && v.On(u.side)[k].price == u.price
  }

  /** `u` can be applied to `v`: an ADD is newer than everything resting and behind everything at
      its price, MODIFY and REMOVE name a resting order, and only real changes are announced. A
      client looks orders up without checking that they exist (market_order_book.cpp:36-47). */
  ghost predicate Legal(v: View, u: Update) {
    match u.kind
    case ADD =>
      && IsTradeSide(u.side) && u.qty > 0
      && (forall i :: 0 <= i < |v.bids| ==> v.bids[i].oid < u.oid)
      && (forall i :: 0 <= i < |v.asks| ==> v.asks[i].oid < u.oid)
      && (forall i :: 0 <= i < |v.On(u.side)| && v.On(u.side)[i].price == u.price ==>
            v.On(u.side)[i].priority < u.priority)
    case MODIFY => u.qty > 0 && exists k: nat :: Names(v, u, k)
    case REMOVE => exists k: nat :: Names(v, u, k)
    case TRADE => true
    case CLEAR => false
    case SNAPSHOT_START => false
    case SNAPSHOT_END => false
  }

  /** Every update for instrument `t` is legal where it stands. */
  ghost predicate LegalFrom(t: nat, v: View, us: seq<Update>)
    decreases |us|
  {
    us == [] ||
    var n := |us| - 1;
    LegalFrom(t, v, us[..n]) && (us[n].ticker == t ==> Legal(ApplyAll(t, v, us[..n]), us[n]))
  }

  lemma {:induction false} LegalAppend(t: nat, v: View, a: seq<Update>, b: seq<Update>)
    requires LegalFrom(t, v, a) && LegalFrom(t, ApplyAll(t, v, a), b)
    ensures LegalFrom(t, v, a + b)
    decreases |b|
  {
    if b == [] {
      assert a + b == a;
    } else {
      var n := |b| - 1;
      assert (a + b)[..|a + b| - 1] == a + b[..n];
      LegalAppend(t, v, a, b[..n]);
      ApplyAppend(t, v, a, b[..n]);
    }
  }

  lemma {:induction false} LegalPrefix(t: nat, v: View, us: seq<Update>, n: nat)
    requires LegalFrom(t, v, us) && n <= |us|
    ensures LegalFrom(t, v, us[..n])
    decreases |us|
  {
    if n < |us| {
      LegalPrefix(t, v, us[..|us| - 1], n);
      assert us[..|us| - 1][..n] == us[..n];
    } else {
      assert us[..n] == us;
    }
  }

  lemma LegalPair(t: nat, v: View, u: Update, w: Update)
    requires u.kind == TRADE && u.ticker == t && w.ticker == t && Legal(v, w)
    ensures LegalFrom(t, v, [u, w])
  {
    assert [u, w][..1] == [u] && [u][..0] == [];
    assert LegalFrom(t, v, []) && LegalFrom(t, v, [u]);
    assert ApplyAll(t, v, [u]) == v;
  }

  // ----- a client's book under a legal stream -----

  ghost predicate GoodSeen(side: Side, s: seq<SeenOrder>) {
    && Sorted(side, s) && Live(side, s) && DistinctKeys(s)
    && forall i :: 0 <= i < |s| ==> s[i].key == s[i].oid
  }

  ghost predicate Disjoint(a: seq<SeenOrder>, b: seq<SeenOrder>) {
    forall i, j :: 0 <= i < |a| && 0 <= j < |b| ==> a[i].oid != b[j].oid
  }

  ghost predicate GoodView(v: View) {
    GoodSeen(BUY, v.bids) && GoodSeen(SELL, v.asks) && Disjoint(v.bids, v.asks)
  }

  lemma CutSeen(side: Side, s: seq<SeenOrder>, k: nat, other: seq<SeenOrder>)
    requires GoodSeen(side, s) && k < |s| && Disjoint(s, other)
    ensures GoodSeen(side, Drop(s, s[k].oid)) && Disjoint(Drop(s, s[k].oid), other)
    ensures Drop(s, s[k].oid) == s[..k] + s[k + 1..]
  {
    DropCuts(s, k);
    CutKeeps(side, s, k);
    var r := s[..k] + s[k + 1..];
    assert forall i :: 0 <= i < |r| ==> r[i] == s[if i < k then i else i + 1];
  }

  lemma ResizeSeen(side: Side, s: seq<SeenOrder>, k: nat, qty: nat, other: seq<SeenOrder>)
    requires GoodSeen(side, s) && k < |s| && qty > 0 && Disjoint(s, other)
    ensures GoodSeen(side, Resize(s, s[k].oid, qty)) && Disjoint(Resize(s, s[k].oid, qty), other)
    ensures Resize(s, s[k].oid, qty) == s[k := s[k].(qty := qty)]
  {
    ResizeCuts(s, k, qty);
    var r := s[k := s[k].(qty := qty)];
    forall i, j | 0 <= i < j < |r|
      ensures Ahead(side, r[i], r[j]) && r[i].key != r[j].key
    {
      assert Ahead(side, s[i], s[j]);
    }
  }

  lemma OthersUntouched(s: seq<SeenOrder>, k: nat, other: seq<SeenOrder>, qty: nat)
    requires k < |s| && Disjoint(s, other)
    requires forall i :: 0 <= i < |other| ==> other[i].key == other[i].oid
    ensures Drop(other, s[k].oid) == other && Resize(other, s[k].oid, qty) == other
  {
    DropAbsent(other, s[k].oid);
    ResizeAbsent(other, s[k].oid, qty);
  }

  lemma DisjointFlip(a: seq<SeenOrder>, b: seq<SeenOrder>)
    requires Disjoint(a, b)
    ensures Disjoint(b, a)
  {
  }

  /** Where a legal update acts on the copy. */
  lemma LegalActs(t: nat, v: View, u: Update, k: nat)
    requires GoodView(v) && u.ticker == t && Names(v, u, k)
    ensures u.kind == REMOVE ==>
              Apply(t, v, u) == v.With(u.side, v.On(u.side)[..k] + v.On(u.side)[k + 1..])
    ensures u.kind == MODIFY ==>
              Apply(t, v, u) == v.With(u.side, v.On(u.side)[k := v.On(u.side)[k].(qty := u.qty)])
  {
    var s, other := v.On(u.side), v.On(Opposite(u.side));
    DisjointFlip(v.bids, v.asks);
    OthersUntouched(s, k, other, u.qty);
    DropCuts(s, k);
    ResizeCuts(s, k, u.qty);
  }

  lemma EnqueueSeen(s: seq<SeenOrder>, o: SeenOrder, other: seq<SeenOrder>)
    requires IsTradeSide(o.side) && o.qty > 0 && o.key == o.oid
    requires GoodSeen(o.side, s) && Disjoint(s, other)
    requires forall i :: 0 <= i < |s| ==> s[i].oid < o.oid
    requires forall i :: 0 <= i < |other| ==> other[i].oid < o.oid
    requires forall i :: 0 <= i < |s| && s[i].price == o.price ==> s[i].priority < o.priority
    ensures GoodSeen(o.side, Enqueue(s, o)) && Disjoint(Enqueue(s, o), other)
  {
    EnqueueKeeps(s, o);
    EnqueueSlot(s, o);
    var r, k := Enqueue(s, o), Slot(s, o);
    assert forall i :: 0 <= i < |r| && i != k ==> r[i] == s[if i < k then i else i - 1];
  }

  lemma LegalKeepsGoodView(t: nat, v: View, u: Update)
    requires GoodView(v) && (u.ticker == t ==> Legal(v, u))
    ensures GoodView(Apply(t, v, u))
  {
    if u.ticker == t {
      DisjointFlip(v.bids, v.asks);
      var s, other := v.On(u.side), v.On(Opposite(u.side));
      match u.kind
      case ADD =>
        EnqueueSeen(s, Announced(u), other);
        DisjointFlip(Enqueue(s, Announced(u)), other);
      case MODIFY =>
        var k: nat :| Names(v, u, k);
        LegalActs(t, v, u, k);
        ResizeSeen(u.side, s, k, u.qty, other);
        DisjointFlip(Resize(s, s[k].oid, u.qty), other);
      case REMOVE =>
        var k: nat :| Names(v, u, k);
        LegalActs(t, v, u, k);
        CutSeen(u.side, s, k, other);
        DisjointFlip(Drop(s, s[k].oid), other);
      case TRADE =>
    }
  }

  lemma {:induction false} LegalReplayIsGood(t: nat, us: seq<Update>)
    requires LegalFrom(t, EMPTY_VIEW, us)
    ensures GoodView(Replay(t, us))
    decreases |us|
  {
    if us != [] {
      LegalReplayIsGood(t, us[..|us| - 1]);
      LegalKeepsGoodView(t, Replay(t, us[..|us| - 1]), us[|us| - 1]);
    }
  }

  // ----- the exchange sends legal streams -----

  lemma FillIsLegal(t: nat, inc: BookOrder, v: View, opp: seq<BookOrder>)
    requires IsTradeSide(inc.side) && Live(Opposite(inc.side), opp) && opp != [] && inc.qty > 0
    requires v.On(Opposite(inc.side)) == SeenSide(opp)
    ensures LegalFrom(t, v, FillUpdates(t, inc, opp[0], Min(inc.qty, opp[0].qty)))
  {
    hide LegalFrom;
    var us := FillUpdates(t, inc, opp[0], Min(inc.qty, opp[0].qty));
    assert Names(v, us[1], 0);
    LegalPair(t, v, us[0], us[1]);
  }

  lemma {:induction false} MatchIsLegal(t: nat, inc: BookOrder, v: View, opp: seq<BookOrder>, own: seq<BookOrder>)
    requires IsTradeSide(inc.side) && Live(Opposite(inc.side), opp)
    requires v.On(Opposite(inc.side)) == SeenSide(opp) && v.On(inc.side) == SeenSide(own)
    requires DistinctIds(opp) && forall i :: 0 <= i < |opp| ==> Unseen(own, opp[i].oid)
    ensures LegalFrom(t, v, MatchAll(t, inc, opp).updates)
    decreases |opp|
  {
    hide MatchAll, FillPair, FillUpdates, Legal, Apply;
    if !Trades(inc, opp) {
      MatchStops(t, inc, opp);
    } else {
      var fill := Min(inc.qty, opp[0].qty);
      var us := FillUpdates(t, inc, opp[0], fill);
      FillIsLegal(t, inc, v, opp);
      if inc.qty < opp[0].qty {
        MatchEndsInside(t, inc, opp);
      } else {
        MatchGoesOn(t, inc, opp);
        var inc' := inc.(qty := inc.qty - opp[0].qty);
        var v' := v.With(Opposite(inc.side), SeenSide(opp[1..]));
        FullFillFollows(t, inc, v, opp, own);
        MatchIsLegal(t, inc', v', opp[1..], own);
        LegalAppend(t, v, us, MatchAll(t, inc', opp[1..]).updates);
      }
    }
  }

  lemma RestingIsLegal(b: Book, rest: seq<BookOrder>, o: BookOrder, t: nat)
    requires GoodFrom(b, o.side) && IsTradeSide(o.side) && o.qty > 0 && o.oid == b.nextOid
    requires o.priority == NextPriority(b.On(o.side), o.price)
    requires Remainder(rest, b.On(Opposite(o.side)))
    ensures Legal(Outside(b).With(Opposite(o.side), SeenSide(rest)), AddedUpdate(t, o))
  {
    NextPriorityTops(b.On(o.side), o.side, o.price);
    RemainderKeeps(Opposite(o.side), rest, b.On(Opposite(o.side)), b.nextOid);
  }

  lemma AddIsLegal(b: Book, t: nat, ref: OrderRef, side: Side, price: int, qty: nat)
    requires Good(b) && IsTradeSide(side)
    ensures LegalFrom(t, Outside(b), Add(b, t, ref, side, price, qty).updates)
  {
    var inc := Incoming(b, ref, side, price, qty);
    var own, opp := b.On(side), b.On(Opposite(side));
    var m := MatchAll(t, inc, opp);
    FacingUnseen(b, Opposite(side));
    GoodFromEither(b, side);
    MatchIsLegal(t, inc, Outside(b), opp, own);
    if m.leaves > 0 {
      var o := inc.(qty := m.leaves, priority := NextPriority(own, price));
      MatchFollows(t, inc, Outside(b), opp, own);
      MatchLeavesRemainder(t, inc, opp);
      RestingIsLegal(b, m.rest, o, t);
      LegalOne(t, Outside(b).With(Opposite(side), SeenSide(m.rest)), AddedUpdate(t, o));
      LegalAppend(t, Outside(b), m.updates, [AddedUpdate(t, o)]);
    }
  }

  lemma LegalOne(t: nat, v: View, u: Update)
    requires Legal(v, u)
    ensures LegalFrom(t, v, [u])
  {
    assert [u][..0] == [];
    assert LegalFrom(t, v, []);
  }

  lemma ProcessIsLegal(b: Book, r: Request)
    requires Good(b) && Admissible(b, r)
    ensures LegalFrom(r.ticker, Outside(b), Process(b, r).updates)
  {
    match r.kind
    case NEW => AddIsLegal(b, r.ticker, r.ref, r.side, r.price, r.qty);
    case CANCEL =>
      match Lookup(b, r.ref)
      case None =>
      case Some(o) =>
        var k := LookupFinds(b, r.ref);
        assert Names(Outside(b), CanceledUpdate(r.ticker, o), k);
        LegalOne(r.ticker, Outside(b), CanceledUpdate(r.ticker, o));
  }
}
