/** Why a client's pointer book has a place for every order it is told of: the exchange found a price slot
    for each, and a snapshot restates orders that were in the exchange's book together. */
module Following {
  import opened Common
  import opened Ladder
  import opened PriceSlots
  import opened Matching
  import opened BookInvariant
  import opened Placing
  import opened Replica
  import opened UpdateStream
  import opened Venue
  import opened Snapshot
  import opened Recovery
  import opened Downstream
  import opened Fits

  // ----- the exchange's own stream -----

  /** An order that is announced has a real id, and its price slot to itself. */
  ghost predicate AddFits(v: View, u: Update) {
    u.kind == ADD ==> u.oid >= 1 && SlotFits(v.On(u.side), v.On(Opposite(u.side)), u.price)
  }

  ghost predicate AddsFitFrom(t: nat, v: View, us: seq<Update>)
    decreases |us|
  {
    us == [] ||
    var n := |us| - 1;
    AddsFitFrom(t, v, us[..n]) && (us[n].ticker == t ==> AddFits(ApplyAll(t, v, us[..n]), us[n]))
  }

  lemma {:induction false} AddsFitAppend(t: nat, v: View, a: seq<Update>, b: seq<Update>)
    requires AddsFitFrom(t, v, a) && AddsFitFrom(t, ApplyAll(t, v, a), b)
    ensures AddsFitFrom(t, v, a + b)
    decreases |b|
  {
    hide AddFits;
    if b == [] {
      assert a + b == a;
    } else {
      var n := |b| - 1;
      assert (a + b)[..|a + b| - 1] == a + b[..n];
      AddsFitAppend(t, v, a, b[..n]);
      ApplyAppend(t, v, a, b[..n]);
    }
  }

  lemma {:induction false} AddsFitPrefix(t: nat, v: View, us: seq<Update>, n: nat)
    requires AddsFitFrom(t, v, us) && n <= |us|
    ensures AddsFitFrom(t, v, us[..n])
    decreases |us|
  {
    hide AddFits;
    if n < |us| {
      AddsFitPrefix(t, v, us[..|us| - 1], n);
      assert us[..|us| - 1][..n] == us[..n];
    } else {
      assert us[..n] == us;
    }
  }

  /** Updates that add nothing to the book of `t`. */
  ghost predicate NoAdds(t: nat, us: seq<Update>) {
    forall i :: 0 <= i < |us| ==> us[i].ticker != t || us[i].kind != ADD
  }

  lemma {:induction false} NoAddsFit(t: nat, v: View, us: seq<Update>)
    requires NoAdds(t, us)
    ensures AddsFitFrom(t, v, us)
    decreases |us|
  {
    if us != [] {
      NoAddsFit(t, v, us[..|us| - 1]);
    }
  }

  lemma {:induction false} MatchAddsNothing(t: nat, inc: BookOrder, opp: seq<BookOrder>)
    ensures NoAdds(t, MatchAll(t, inc, opp).updates)
    decreases |opp|
  {
    if inc.qty == 0 || opp == [] || !Crosses(inc.side, inc.price, opp[0].price) {
    } else if inc.qty >= opp[0].qty {
      MatchAddsNothing(t, inc.(qty := inc.qty - opp[0].qty), opp[1..]);
    }
  }

  lemma SeenFits(own: seq<BookOrder>, opp: seq<BookOrder>, price: int)
    requires SlotFits(own, opp, price)
    ensures SlotFits(SeenSide(own), SeenSide(opp), price)
  {
  }

  lemma AddedFits(t: nat, v: View, u: Update)
    requires u.ticker == t && AddFits(v, u)
    ensures AddsFitFrom(t, v, [u])
  {
    assert [u][..0] == [] && AddsFitFrom(t, v, []);
  }

  /** What a request announces has a place where it stands, if the exchange's book had one for it. */
  lemma NewFits(b: Book, r: Request)
    requires Good(b) && Admissible(b, r) && r.kind == NEW && b.nextOid >= 1
    requires CanRest(b, r.ticker, r.ref, r.side, r.price, r.qty)
    ensures AddsFitFrom(r.ticker, Outside(b), Process(b, r).updates)
  {
    hide MatchAll, CanRest, Lookup, AddsFitFrom, SlotFits, ApplyAll, Enqueue;
    var t, inc := r.ticker, Incoming(b, r.ref, r.side, r.price, r.qty);
    var own, opp := b.On(r.side), b.On(Opposite(r.side));
    var m := MatchAll(t, inc, opp);
    MatchAddsNothing(t, inc, opp);
    NoAddsFit(t, Outside(b), m.updates);
    if m.leaves > 0 {
      var o := inc.(qty := m.leaves, priority := NextPriority(own, r.price));
      var v := Outside(b).With(Opposite(r.side), SeenSide(m.rest));
      RestFits(b, t, inc);
      SeenFits(own, m.rest, r.price);
      GoodFromEither(b, Opposite(r.side));
      FacingUnseen(b, Opposite(r.side));
      MatchFollows(t, inc, Outside(b), opp, own);
      AddedFits(t, v, AddedUpdate(t, o));
      AddsFitAppend(t, Outside(b), m.updates, [AddedUpdate(t, o)]);
    }
  }

  lemma ProcessFits(b: Book, r: Request)
    requires Good(b) && Admissible(b, r) && b.nextOid >= 1
    requires r.kind == NEW ==> CanRest(b, r.ticker, r.ref, r.side, r.price, r.qty)
    ensures AddsFitFrom(r.ticker, Outside(b), Process(b, r).updates)
  {
    match r.kind
    case NEW => NewFits(b, r);
    case CANCEL => NoAddsFit(r.ticker, Outside(b), Process(b, r).updates);
  }

  /** Every request is accepted, and the exchange has a place for whatever comes to rest. */
  ghost predicate Placed(rs: seq<Request>)
    decreases |rs|
  {
    rs == [] ||
    var e, r := ServeAll(rs[..|rs| - 1]), rs[|rs| - 1];
    && Placed(rs[..|rs| - 1]) && Accepts(e, r)
    && (r.kind == NEW ==> CanRest(e.books[r.ticker], r.ticker, r.ref, r.side, r.price, r.qty))
  }

  lemma {:induction false} PlacedIsAccepted(rs: seq<Request>)
    requires Placed(rs)
    ensures Accepted(rs)
    decreases |rs|
  {
    hide Accepts, CanRest;
    if rs != [] {
      PlacedIsAccepted(rs[..|rs| - 1]);
    }
  }

  lemma ServeFits(e: Engine, r: Request, t: nat)
    requires Accepts(e, r) && t < |e.books| && Described(e, t) && Described(e, r.ticker)
        && e.books[r.ticker].nextOid >= 1
    requires r.kind == NEW ==> CanRest(e.books[r.ticker], r.ticker, r.ref, r.side, r.price, r.qty)
    requires AddsFitFrom(t, EMPTY_VIEW, e.log)
    ensures AddsFitFrom(t, EMPTY_VIEW, Serve(e, r).log)
  {
    hide Process, CanRest, LegalFrom, Good, Admissible, AddsFitFrom;
    var us := Process(e.books[r.ticker], r).updates;
    if r.ticker == t {
      ProcessFits(e.books[t], r);
    } else {
      ProcessTicker(e.books[r.ticker], r);
      NoAddsFit(t, Replay(t, e.log), us);
    }
    AddsFitAppend(t, EMPTY_VIEW, e.log, us);
  }

  lemma NextIdGrows(b: Book, r: Request)
    ensures Process(b, r).book.nextOid >= b.nextOid
  {
    hide MatchAll, Enqueue, Drop, Lookup;
  }

  /** Every order announced by the exchange has its price slot to itself where it is announced. */
  lemma {:induction false} LogFits(rs: seq<Request>, t: nat)
    requires Placed(rs) && t < ME_MAX_TICKERS
    ensures AddsFitFrom(t, EMPTY_VIEW, ServeAll(rs).log)
    ensures |ServeAll(rs).books| == ME_MAX_TICKERS
    ensures forall i :: 0 <= i < ME_MAX_TICKERS ==> ServeAll(rs).books[i].nextOid >= 1
    decreases |rs|
  {
    hide CanRest, Described, AddsFitFrom, Process;
    PlacedIsAccepted(rs);
    if rs == [] {
      NoAddsFit(t, EMPTY_VIEW, []);
    } else {
      var e, r := ServeAll(rs[..|rs| - 1]), rs[|rs| - 1];
      LogFits(rs[..|rs| - 1], t);
      LogDescribesBooks(rs[..|rs| - 1]);
      ServeFits(e, r, t);
      NextIdGrows(e.books[r.ticker], r);
    }
  }

  // ----- the books such a stream describes -----

  predicate InView(v: View, o: SeenOrder) {
    o in v.bids || o in v.asks
  }

  /** A price slot serves one price and one side, and ids are real. */
  ghost predicate Spaced(v: View) {
    && (forall o :: InView(v, o) ==> o.oid >= 1)
    && forall o, p :: InView(v, o) && InView(v, p) && PriceToIndex(o.price) == PriceToIndex(p.price) ==>
         o.price == p.price && o.side == p.side
  }

  predicate Alike(o: SeenOrder, p: SeenOrder) {
    o.oid == p.oid && o.price == p.price && o.side == p.side
  }

  lemma {:induction false} EnqueueMembers<K>(s: seq<Order<K>>, o: Order<K>)
    ensures forall x :: x in Enqueue(s, o) <==> x in s || x == o
  {
    if s == [] || Better(o.side, o.price, s[0].price) {
    } else {
      EnqueueMembers(s[1..], o);
      assert s == [s[0]] + s[1..];
    }
  }

  /** An update leaves the orders that were there, gone or reduced, and at most adds its own. */
  lemma ApplyMembers(t: nat, v: View, u: Update, o: SeenOrder)
    requires GoodView(v) && u.ticker == t && Legal(v, u) && InView(Apply(t, v, u), o)
    ensures (u.kind == ADD && o == Announced(u)) || exists p :: InView(v, p) && Alike(p, o)
  {
    hide GoodView, Enqueue, Drop, Resize;
    if InView(v, o) {
      assert Alike(o, o);
    } else {
      match u.kind
      case ADD => EnqueueMembers(v.On(u.side), Announced(u));
      case MODIFY =>
        var k: nat :| Names(v, u, k);
        LegalActs(t, v, u, k);
        assert InView(v, v.On(u.side)[k]) && Alike(v.On(u.side)[k], o);
      case REMOVE =>
        var k: nat :| Names(v, u, k);
        LegalActs(t, v, u, k);
      case TRADE =>
    }
  }

  /** An order of the view that shares its price slot with a new order shares its price and side. */
  lemma NewIsSpaced(v: View, u: Update, p: SeenOrder)
    requires GoodView(v) && u.kind == ADD && IsTradeSide(u.side) && AddFits(v, u) && InView(v, p)
    requires PriceToIndex(p.price) == PriceToIndex(u.price)
    ensures p.price == u.price && p.side == u.side
  {
    var side := if p in v.bids then BUY else SELL;
    var i :| 0 <= i < |v.On(side)| && v.On(side)[i] == p;
  }

  lemma SpacedStays(t: nat, v: View, u: Update)
    requires GoodView(v) && Spaced(v) && u.ticker == t && Legal(v, u) && AddFits(v, u)
    ensures Spaced(Apply(t, v, u))
  {
    hide GoodView, AddFits, Apply;
    var v' := Apply(t, v, u);
    forall o | InView(v', o)
      ensures o.oid >= 1
    {
      ApplyMembers(t, v, u, o);
      RealId(v, u);
    }
    forall o, p | InView(v', o) && InView(v', p) && PriceToIndex(o.price) == PriceToIndex(p.price)
      ensures o.price == p.price && o.side == p.side
    {
      PairStays(t, v, u, o, p);
    }
  }

  lemma RealId(v: View, u: Update)
    requires AddFits(v, u)
    ensures u.kind == ADD ==> u.oid >= 1
  {
  }

  lemma PairStays(t: nat, v: View, u: Update, o: SeenOrder, p: SeenOrder)
    requires GoodView(v) && Spaced(v) && u.ticker == t && Legal(v, u) && AddFits(v, u)
    requires InView(Apply(t, v, u), o) && InView(Apply(t, v, u), p) && PriceToIndex(o.price) == PriceToIndex(p.price)
    ensures o.price == p.price && o.side == p.side
  {
    hide GoodView, AddFits, Apply;
    ApplyMembers(t, v, u, o);
    ApplyMembers(t, v, u, p);
    var newO, newP := u.kind == ADD && o == Announced(u), u.kind == ADD && p == Announced(u);
    if newO && !newP {
      var q :| InView(v, q) && Alike(q, p);
      NewIsSpaced(v, u, q);
    } else if newP && !newO {
      var q :| InView(v, q) && Alike(q, o);
      NewIsSpaced(v, u, q);
    }
  }

  lemma {:induction false} LogSpaced(t: nat, us: seq<Update>)
    requires LegalFrom(t, EMPTY_VIEW, us) && AddsFitFrom(t, EMPTY_VIEW, us)
    ensures Spaced(Replay(t, us))
    decreases |us|
  {
    hide Legal, AddFits, GoodView, Apply;
    if us == [] {
      NothingSpaced();
    } else {
      var n := |us| - 1;
      LogSpaced(t, us[..n]);
      if us[n].ticker == t {
        LegalReplayIsGood(t, us[..n]);
        SpacedStays(t, Replay(t, us[..n]), us[n]);
      } else {
        OtherUnmoved(t, Replay(t, us[..n]), us[n]);
      }
    }
  }

  lemma NothingSpaced()
    ensures Spaced(EMPTY_VIEW)
  {
  }

  /** Through the whole run a price slot of the exchange serves one side only. */
  lemma OneSidePerSlot(rs: seq<Request>, t: nat, i: nat, j: nat)
    requires Placed(rs) && t < ME_MAX_TICKERS
    ensures |ServeAll(rs).books| == ME_MAX_TICKERS
    ensures var b := ServeAll(rs).books[t];
            i < |b.bids| && j < |b.asks| ==> PriceToIndex(b.bids[i].price) != PriceToIndex(b.asks[j].price)
  {
    hide AddsFitFrom, Placed, LegalFrom;
    PlacedIsAccepted(rs);
    LogDescribesBooks(rs);
    LogFits(rs, t);
    assert Described(ServeAll(rs), t);
    LogSpaced(t, ServeAll(rs).log);
    var b, v := ServeAll(rs).books[t], Outside(ServeAll(rs).books[t]);
    if i < |b.bids| && j < |b.asks| {
      assert InView(v, v.bids[i]) && InView(v, v.asks[j]);
    }
  }

  // ----- counting -----

  ghost function Ids(s: seq<SeenOrder>): set<nat> {
    set i | 0 <= i < |s| :: s[i].oid
  }

  lemma {:induction false} IdsSize(s: seq<SeenOrder>)
    requires forall i, j :: 0 <= i < j < |s| ==> s[i].oid != s[j].oid
    ensures |Ids(s)| == |s|
    decreases |s|
  {
    if s != [] {
      var n := |s| - 1;
      IdsSize(s[..n]);
      assert Ids(s) == Ids(s[..n]) + {s[n].oid};
    }
  }

  lemma {:induction false} Interval(s: set<nat>, n: nat)
    requires forall x :: x in s ==> 1 <= x < n
    ensures s == {} || |s| < n
    decreases n
  {
    if s != {} {
      var x :| x in s;
      Interval(s - {n - 1}, n - 1);
      assert |s| <= |s - {n - 1}| + 1;
    }
  }

  /** Orders with different ids from 1 up to but not including `n` are fewer than `n`. */
  lemma FewerThan(v: View, n: nat)
    requires GoodView(v) && n >= 1 && forall o :: InView(v, o) ==> 1 <= o.oid < n
    ensures |v.bids| + |v.asks| < n
  {
    DistinctSeen(v);
    var all := v.bids + v.asks;
    forall i, j | 0 <= i < j < |all|
      ensures all[i].oid != all[j].oid
    {
      if i < |v.bids| <= j {
        assert v.bids[i].oid != v.asks[j - |v.bids|].oid;
      }
    }
    IdsSize(all);
    forall x | x in Ids(all)
      ensures 1 <= x < n
    {
      var i :| 0 <= i < |all| && all[i].oid == x;
      assert InView(v, all[i]);
    }
    Interval(Ids(all), n);
  }

  lemma {:induction false} BelowShorter(s: seq<SeenOrder>, n: nat)
    ensures |Below(s, n)| <= |s|
    ensures (exists i :: 0 <= i < |s| && s[i].oid >= n) ==> |Below(s, n)| < |s|
  {
    if s != [] {
      BelowShorter(s[1..], n);
      if s[0].oid < n && exists i :: 0 <= i < |s| && s[i].oid >= n {
        var i :| 0 <= i < |s| && s[i].oid >= n;
        assert s[1..][i - 1].oid >= n;
      }
    }
  }

  // ----- everything passed on has a place -----

  /** The exchange's own announcement. */
  lemma EntryFits(log: seq<Update>, t: nat, j: nat)
    requires LegalLog(log) && AddsFitFrom(t, EMPTY_VIEW, log) && t < ME_MAX_TICKERS
    requires j < |log| && log[j].ticker == t && log[j].kind == ADD
    ensures Fitting(Replay(t, log[..j]), log[j])
  {
    hide GoodView, SlotFits, LegalFrom, Replay;
    var v, u := Replay(t, log[..j]), log[j];
    EntryIsLegal(log, t, j);
    EntryFitsSlot(log, t, j);
    LegalLogPrefix(log, j);
    LegalReplayIsGood(t, log[..j]);
    AddsFitPrefix(t, EMPTY_VIEW, log, j);
    LogSpaced(t, log[..j]);
    FewerThan(v, u.oid);
  }

  lemma EntryFitsSlot(log: seq<Update>, t: nat, j: nat)
    requires AddsFitFrom(t, EMPTY_VIEW, log) && j < |log| && log[j].ticker == t
    ensures AddFits(Replay(t, log[..j]), log[j])
  {
    hide AddFits;
    AddsFitPrefix(t, EMPTY_VIEW, log, j + 1);
    assert log[..j + 1][..j] == log[..j];
  }

  /** An order restated in a snapshot. */
  lemma RestatedFits(log: seq<Update>, t: nat, anchor: nat, n: nat)
    requires LegalLog(log) && AddsFitFrom(t, EMPTY_VIEW, log) && t < ME_MAX_TICKERS && anchor <= |log|
    requires n in Synthesize(t, log[..anchor])
    ensures Fitting(BelowView(Replay(t, log[..anchor]), n), Synthesize(t, log[..anchor])[n])
  {
    hide LegalLog, AddsFitFrom, Synthesize, Replay, GoodView, Mirrors, SlotFits, Below;
    var m, v := Synthesize(t, log[..anchor]), Replay(t, log[..anchor]);
    AnchorMirrors(log, t, anchor);
    AnchorSpaced(log, t, anchor);
    AnchorSmall(log, t, anchor);
    FewerThan(v, ME_MAX_ORDER_IDS);
    var o := RestatedOrder(t, m, v, n);
    BelowFits(v, o);
  }

  lemma AnchorSpaced(log: seq<Update>, t: nat, anchor: nat)
    requires LegalLog(log) && AddsFitFrom(t, EMPTY_VIEW, log) && t < ME_MAX_TICKERS && anchor <= |log|
    ensures Spaced(Replay(t, log[..anchor]))
  {
    LegalLogPrefix(log, anchor);
    AddsFitPrefix(t, EMPTY_VIEW, log, anchor);
    LogSpaced(t, log[..anchor]);
  }

  lemma AnchorSmall(log: seq<Update>, t: nat, anchor: nat)
    requires LegalLog(log) && t < ME_MAX_TICKERS && anchor <= |log|
    ensures forall o :: InView(Replay(t, log[..anchor]), o) ==> o.oid < ME_MAX_ORDER_IDS
  {
    hide Synthesize, Replay, GoodView;
    var m, v := Synthesize(t, log[..anchor]), Replay(t, log[..anchor]);
    LegalLogPrefix(log, anchor);
    SynthesizeSmall(t, log[..anchor]);
    AnchorMirrors(log, t, anchor);
    forall o | InView(v, o)
      ensures o.oid < ME_MAX_ORDER_IDS
    {
      assert o.oid in m;
    }
  }

  lemma RestatedOrder(t: nat, m: Ledger, v: View, n: nat) returns (o: SeenOrder)
    requires GoodView(v) && Mirrors(t, m, v) && n in m
    ensures InView(v, o) && o.oid == n && IsTradeSide(o.side) && o in v.On(o.side) && m[n] == Restated(t, o)
  {
    var side := if Listed(v.bids, n) then BUY else SELL;
    var k :| 0 <= k < |v.On(side)| && v.On(side)[k].oid == n;
    o := v.On(side)[k];
  }

  /** The older orders of a spaced book leave its price slot to each order. */
  lemma BelowFits(v: View, o: SeenOrder)
    requires GoodView(v) && Spaced(v) && IsTradeSide(o.side) && o in v.On(o.side)
    ensures var w := BelowView(v, o.oid);
            && SlotFits(w.On(o.side), w.On(Opposite(o.side)), o.price)
            && |w.bids| + |w.asks| < |v.bids| + |v.asks|
  {
    hide Below;
    var w := BelowView(v, o.oid);
    BelowOlder(v.bids, o.oid);
    BelowOlder(v.asks, o.oid);
    BelowShorter(v.bids, o.oid);
    BelowShorter(v.asks, o.oid);
    var own, opp := w.On(o.side), w.On(Opposite(o.side));
    forall i | 0 <= i < |own| && PriceToIndex(own[i].price) == PriceToIndex(o.price)
      ensures own[i].price == o.price
    {
      assert InView(v, own[i]) && InView(v, o);
    }
    forall i | 0 <= i < |opp|
      ensures PriceToIndex(opp[i].price) != PriceToIndex(o.price)
    {
      assert InView(v, opp[i]) && InView(v, o) && opp[i] in v.On(Opposite(o.side));
      OnItsSide(v, Opposite(o.side), opp[i]);
    }
  }

  lemma OnItsSide(v: View, side: Side, o: SeenOrder)
    requires GoodView(v) && IsTradeSide(side) && o in v.On(side)
    ensures o.side == side
  {
    var i :| 0 <= i < |v.On(side)| && v.On(side)[i] == o;
  }

  lemma SourcedFits(log: seq<Update>, t: nat, v: View, u: Update)
    requires LegalLog(log) && AddsFitFrom(t, EMPTY_VIEW, log) && t < ME_MAX_TICKERS
    requires u.ticker == t && Sourced(log, t, v, u)
    ensures Fitting(v, u)
  {
    hide BelowView, Synthesize, LegalLog, AddsFitFrom;
    if u.kind == ADD {
      if j: nat :| LogEntry(log, t, v, u, j) {
        EntryFits(log, t, j);
      } else if anchor: nat :| SnapshotEntry(log, t, v, u, anchor) {
        RestatedFits(log, t, anchor, u.oid);
      }
    }
  }

  lemma {:induction false} SourcedFromFits(log: seq<Update>, t: nat, us: seq<Update>)
    requires LegalLog(log) && AddsFitFrom(t, EMPTY_VIEW, log) && t < ME_MAX_TICKERS
    requires SourcedFrom(log, t, EMPTY_VIEW, us)
    ensures FittingFrom(t, EMPTY_VIEW, us)
    decreases |us|
  {
    hide LegalLog, AddsFitFrom, Sourced, Fitting;
    if us != [] {
      var n := |us| - 1;
      SourcedFromFits(log, t, us[..n]);
      if us[n].ticker == t {
        SourcedFits(log, t, Replay(t, us[..n]), us[n]);
      }
    }
  }

  /** A client that passes on only what has a source can find a place for every order in it, inside
      snapshots too, whatever the exchange's pools and price slots were used for. */
  lemma TracedFits(rs: seq<Request>, c: Consumer, t: nat)
    requires Placed(rs) && LegalLog(ServeAll(rs).log) && Traced(ServeAll(rs).log, c) && t < ME_MAX_TICKERS
    ensures FittingFrom(t, EMPTY_VIEW, c.out)
  {
    hide LegalLog, AddsFitFrom, Placed, SourcedFrom, FittingFrom;
    LogFits(rs, t);
    SourcedFromFits(ServeAll(rs).log, t, c.out);
  }
}
