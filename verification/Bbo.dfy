/** The client's cached best bid and offer: when refreshing it may be skipped, and exactly when the
    guard as written skips too much. */
module Bbo {
  import opened Common
  import opened Ladder
  import opened Replica
  import opened UpdateStream
  import opened TopOfBook

  datatype BBO = BBO(bidPrice: int, bidQty: nat, askPrice: int, askQty: nat)
  {
    /** The cached values of one side are the top of the book. */
    ghost predicate Matches(v: View, side: Side) {
      if side == BUY then IsTop(BUY, v.bids, bidPrice, bidQty) else IsTop(SELL, v.asks, askPrice, askQty)
    }

    function Refresh(v: View, side: Side): BBO {
      if side == BUY then this.(bidPrice := TopPrice(v.bids), bidQty := TopQty(v.bids))
      else this.(askPrice := TopPrice(v.asks), askQty := TopQty(v.asks))
    }
  }

  const NO_BBO := BBO(PRICE_INVALID, QTY_INVALID, PRICE_INVALID, QTY_INVALID)

  /** The update is priced at the top of a non-empty side or better (market_order_book.cpp:21-24). */
  predicate AtTop(v: View, u: Update, side: Side) {
    v.On(side) != [] && u.side == side && !Better(side, v.On(side)[0].price, u.price)
  }

  /** Repair: the guard also lets through the first order of a side, and CLEAR. */
  predicate Touches(v: View, u: Update, side: Side) {
    u.kind == CLEAR || (u.side == side && v.On(side) == []) || AtTop(v, u, side)
  }

  function Refreshed(c: BBO, v: View, bid: bool, ask: bool): BBO {
    var c' := if bid then c.Refresh(v, BUY) else c;
    if ask then c'.Refresh(v, SELL) else c'
  }

  /** The cache after update `u` of instrument `t`. TRADE returns before the refresh. */
  function Next(t: nat, c: BBO, v: View, u: Update): BBO {
    if u.kind == TRADE then c else Refreshed(c, Apply(t, v, u), Touches(v, u, BUY), Touches(v, u, SELL))
  }

  function NextAsWritten(t: nat, c: BBO, v: View, u: Update): BBO {
    if u.kind == TRADE then c else Refreshed(c, Apply(t, v, u), AtTop(v, u, BUY), AtTop(v, u, SELL))
  }

  // ----- the run of orders at the best price -----

  function RunLength<K>(s: seq<Order<K>>, price: int): (n: nat)
    ensures n <= |s|
  {
    if s == [] || s[0].price != price then 0 else 1 + RunLength(s[1..], price)
  }

  lemma {:induction false} RunIs<K>(s: seq<Order<K>>, price: int)
    ensures var n := RunLength(s, price);
            && (forall i :: 0 <= i < n ==> s[i].price == price) && (n < |s| ==> s[n].price != price)
  {
    if s != [] && s[0].price == price {
      RunIs(s[1..], price);
    }
  }

  /** Two sides that agree up to the end of the run have the same total there. */
  lemma {:induction false} RunAgrees<K>(s: seq<Order<K>>, r: seq<Order<K>>, price: int, n: nat)
    requires n <= |s| && n <= |r| && forall i :: 0 <= i < n ==> s[i].price == price && r[i] == s[i]
    requires (n < |s| ==> s[n].price != price) && (n < |r| ==> r[n].price != price)
    ensures RunQty(s, price) == RunQty(r, price)
  {
    if n > 0 {
      RunAgrees(s[1..], r[1..], price, n - 1);
    }
  }

  lemma BehindTheRun(s: seq<SeenOrder>, side: Side, i: nat)
    requires Sorted(side, s) && s != [] && RunLength(s, s[0].price) <= i < |s|
    ensures Better(side, s[0].price, s[i].price)
  {
    hide RunLength;
    var n := RunLength(s, s[0].price);
    RunIs(s, s[0].price);
    assert Ahead(side, s[0], s[n]);
    if n < i {
      assert Ahead(side, s[n], s[i]);
    }
  }

  lemma SameTop(s: seq<SeenOrder>, r: seq<SeenOrder>, side: Side)
    requires Sorted(side, s) && s != [] && RunLength(s, s[0].price) <= |r|
    requires forall i :: 0 <= i < RunLength(s, s[0].price) ==> r[i] == s[i]
    requires RunLength(s, s[0].price) < |r| ==> r[RunLength(s, s[0].price)].price != s[0].price
    ensures TopPrice(r) == TopPrice(s) && TopQty(r) == TopQty(s)
  {
    RunIs(s, s[0].price);
    RunAgrees(s, r, s[0].price, RunLength(s, s[0].price));
  }

  /** An order priced worse than the top does not change the top when it joins. */
  lemma WorseJoins(s: seq<SeenOrder>, o: SeenOrder)
    requires Sorted(o.side, s) && s != [] && Better(o.side, s[0].price, o.price)
    ensures TopPrice(Enqueue(s, o)) == TopPrice(s) && TopQty(Enqueue(s, o)) == TopQty(s)
  {
    EnqueueSlot(s, o);
    RunIs(s, s[0].price);
    SameTop(s, Enqueue(s, o), o.side);
  }

  lemma WorseLeaves(s: seq<SeenOrder>, side: Side, k: nat)
    requires Sorted(side, s) && DistinctKeys(s) && k < |s| && Better(side, s[0].price, s[k].price)
    ensures var r := Drop(s, s[k].key); TopPrice(r) == TopPrice(s) && TopQty(r) == TopQty(s)
  {
    DropCuts(s, k);
    RunIs(s, s[0].price);
    var n, r := RunLength(s, s[0].price), s[..k] + s[k + 1..];
    if n < |r| {
      BehindTheRun(s, side, if n < k then n else n + 1);
    }
    SameTop(s, r, side);
  }

  lemma WorseResizes(s: seq<SeenOrder>, side: Side, k: nat, qty: nat)
    requires Sorted(side, s) && DistinctKeys(s) && k < |s| && Better(side, s[0].price, s[k].price)
    ensures var r := Resize(s, s[k].key, qty); TopPrice(r) == TopPrice(s) && TopQty(r) == TopQty(s)
  {
    ResizeCuts(s, k, qty);
    RunIs(s, s[0].price);
    SameTop(s, s[k := s[k].(qty := qty)], side);
  }

  // ----- coherence -----

  /** Where the two sides are sorted, the cached values are what walking along the first level finds. */
  lemma MatchesWalk(c: BBO, v: View)
    requires GoodView(v)
    ensures c.Matches(v, BUY) <==> c.bidPrice == TopPrice(v.bids) && c.bidQty == TopQty(v.bids)
    ensures c.Matches(v, SELL) <==> c.askPrice == TopPrice(v.asks) && c.askQty == TopQty(v.asks)
  {
    TopIs(BUY, v.bids, c.bidPrice, c.bidQty);
    TopIs(SELL, v.asks, c.askPrice, c.askQty);
  }

  /** What a client may receive: a legal update, or the start of a rebuild. */
  ghost predicate Applicable(v: View, u: Update) {
    u.kind == CLEAR || u.kind == SNAPSHOT_START || u.kind == SNAPSHOT_END || Legal(v, u)
  }

  lemma ApplicableKeepsGood(t: nat, v: View, u: Update)
    requires GoodView(v) && u.ticker == t && Applicable(v, u)
    ensures GoodView(Apply(t, v, u))
  {
    if u.kind == CLEAR {
      assert GoodView(EMPTY_VIEW);
    } else if Legal(v, u) {
      LegalKeepsGoodView(t, v, u);
    }
  }

  /** Updates that pass the guard by leave the top of the side alone. */
  lemma SkippedIsHarmless(t: nat, v: View, u: Update, side: Side)
    requires GoodView(v) && IsTradeSide(side) && u.ticker == t && Applicable(v, u)
    requires u.kind != CLEAR && v.On(side) != [] && !AtTop(v, u, side)
    ensures TopPrice(Apply(t, v, u).On(side)) == TopPrice(v.On(side))
    ensures TopQty(Apply(t, v, u).On(side)) == TopQty(v.On(side))
  {
    var s := v.On(side);
    match u.kind
    case ADD =>
      if u.side == side {
        WorseJoins(s, Announced(u));
      }
    case MODIFY =>
      var k: nat :| Names(v, u, k);
      if u.side == side {
        WorseResizes(s, side, k, u.qty);
      } else {
        ResizeAbsent(s, u.oid, u.qty);
      }
    case REMOVE =>
      var k: nat :| Names(v, u, k);
      if u.side == side {
        WorseLeaves(s, side, k);
      } else {
        DropAbsent(s, u.oid);
      }
    case TRADE =>
    case SNAPSHOT_START =>
    case SNAPSHOT_END =>
  }

  /** An update for the other side leaves an empty side empty. */
  lemma StaysEmpty(t: nat, v: View, u: Update, side: Side)
    requires GoodView(v) && IsTradeSide(side) && u.ticker == t && Applicable(v, u) && v.On(side) == []
    requires u.kind == ADD ==> u.side != side
    ensures Apply(t, v, u).On(side) == []
  {
  }

  /** With the repaired guard the cache always agrees with the book, so skipping the refresh for
      worse-priced updates is sound. */
  lemma CacheStaysCoherent(t: nat, c: BBO, v: View, u: Update, side: Side)
    requires GoodView(v) && IsTradeSide(side) && u.ticker == t && Applicable(v, u)
    requires c.Matches(v, side)
    ensures Next(t, c, v, u).Matches(Apply(t, v, u), side)
  {
    hide BBO.Matches;
    ApplicableKeepsGood(t, v, u);
    MatchesWalk(c, v);
    MatchesWalk(Next(t, c, v, u), Apply(t, v, u));
    if u.kind != TRADE && !Touches(v, u, side) {
      if v.On(side) == [] {
        StaysEmpty(t, v, u, side);
      } else {
        SkippedIsHarmless(t, v, u, side);
      }
    }
  }

  /** Real prices are not the marker for "no price". */
  ghost predicate Priced(v: View, u: Update) {
    && (u.kind == ADD ==> u.price != PRICE_INVALID)
    && (forall i :: 0 <= i < |v.bids| ==> v.bids[i].price != PRICE_INVALID)
    && (forall i :: 0 <= i < |v.asks| ==> v.asks[i].price != PRICE_INVALID)
  }

  /** The guard as written loses coherence in exactly two cases: the first order of an empty side,
      and a CLEAR that does not happen to be priced at the top of the side. */
  lemma CacheAsWritten(t: nat, c: BBO, v: View, u: Update, side: Side)
    requires GoodView(v) && IsTradeSide(side) && u.ticker == t && Applicable(v, u) && Priced(v, u)
    requires c.Matches(v, side)
    ensures NextAsWritten(t, c, v, u).Matches(Apply(t, v, u), side) <==>
            && !(u.kind == ADD && u.side == side && v.On(side) == [])
            && !(u.kind == CLEAR && v.On(side) != [] && !AtTop(v, u, side))
  {
    hide BBO.Matches;
    ApplicableKeepsGood(t, v, u);
    MatchesWalk(c, v);
    MatchesWalk(NextAsWritten(t, c, v, u), Apply(t, v, u));
    if u.kind != TRADE && !AtTop(v, u, side) {
      if v.On(side) == [] {
        if u.kind == ADD && u.side == side {
          assert Apply(t, v, u).On(side) == [Announced(u)];
        } else {
          StaysEmpty(t, v, u, side);
        }
      } else if u.kind != CLEAR {
        SkippedIsHarmless(t, v, u, side);
      }
    }
  }

  /** The cache after a whole stream. */
  function CacheAfter(t: nat, us: seq<Update>): BBO
    decreases |us|
  {
    if us == [] then NO_BBO
    else
      var n := |us| - 1;
      if us[n].ticker != t then CacheAfter(t, us[..n])
      else Next(t, CacheAfter(t, us[..n]), Replay(t, us[..n]), us[n])
  }

  /** From `v` on, every update for instrument `t` can be applied where it stands. */
  ghost predicate ApplicableFrom(t: nat, v: View, us: seq<Update>)
    decreases |us|
  {
    us == [] ||
    var n := |us| - 1;
    ApplicableFrom(t, v, us[..n]) && (us[n].ticker == t ==> Applicable(ApplyAll(t, v, us[..n]), us[n]))
  }

  /** Over any stream that can be applied, with rebuilds in it, the cache is the top of the book that
      the stream describes. */
  lemma {:induction false} CacheFollowsStream(t: nat, us: seq<Update>)
    requires ApplicableFrom(t, EMPTY_VIEW, us)
    ensures GoodView(Replay(t, us))
    ensures CacheAfter(t, us).Matches(Replay(t, us), BUY) && CacheAfter(t, us).Matches(Replay(t, us), SELL)
    decreases |us|
  {
    if us != [] {
      var n := |us| - 1;
      CacheFollowsStream(t, us[..n]);
      if us[n].ticker == t {
        ApplicableKeepsGood(t, Replay(t, us[..n]), us[n]);
        CacheStaysCoherent(t, CacheAfter(t, us[..n]), Replay(t, us[..n]), us[n], BUY);
        CacheStaysCoherent(t, CacheAfter(t, us[..n]), Replay(t, us[..n]), us[n], SELL);
      }
    }
  }
}
