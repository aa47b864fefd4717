/** What one request does, at the exchange, to the orders of one client on one side of one book, and
    what that client is told about it. */
module ClientEffect {
  import opened Common
  import opened Ladder
  import opened Matching
  import opened BookInvariant

  /** A response about a client's order on one side of one instrument. */
  predicate About(r: Response, client: nat, t: nat, side: Side) {
    r.ref.client == client && r.ticker == t && r.side == side
  }

  /** The responses about a client's orders on one side of one instrument. */
  function Mine(rs: seq<Response>, client: nat, t: nat, side: Side): seq<Response> {
    if rs == [] then []
    else (if About(rs[0], client, t, side) then [rs[0]] else []) + Mine(rs[1..], client, t, side)
  }

  lemma {:induction false} MineAppend(a: seq<Response>, b: seq<Response>, client: nat, t: nat, side: Side)
    ensures Mine(a + b, client, t, side) == Mine(a, client, t, side) + Mine(b, client, t, side)
  {
    if a == [] {
      assert a + b == b;
    } else {
      assert (a + b)[0] == a[0] && (a + b)[1..] == a[1..] + b;
      MineAppend(a[1..], b, client, t, side);
      var first := if About(a[0], client, t, side) then [a[0]] else [];
      Regroup(first, Mine(a[1..], client, t, side), Mine(b, client, t, side));
    }
  }

  lemma MineOne(r: Response, client: nat, t: nat, side: Side)
    ensures Mine([r], client, t, side) == if About(r, client, t, side) then [r] else []
  {
    assert [r][1..] == [];
  }

  lemma MineTwo(r: Response, q: Response, client: nat, t: nat, side: Side)
    ensures Mine([r, q], client, t, side) == Mine([r], client, t, side) + Mine([q], client, t, side)
  {
    MineAppend([r], [q], client, t, side);
    assert [r] + [q] == [r, q];
  }

  lemma {:induction false} MineOtherTicker(rs: seq<Response>, client: nat, t: nat, side: Side)
    requires forall i :: 0 <= i < |rs| ==> rs[i].ticker != t
    ensures Mine(rs, client, t, side) == []
  {
    if rs != [] {
      MineOtherTicker(rs[1..], client, t, side);
    }
  }

  /** A client's orders on one side. */
  function Owned(s: seq<BookOrder>, client: nat): seq<BookOrder> {
    if s == [] then []
    else (if s[0].key.client == client then [s[0]] else []) + Owned(s[1..], client)
  }

  lemma {:induction false} OwnedAppend(a: seq<BookOrder>, b: seq<BookOrder>, client: nat)
    ensures Owned(a + b, client) == Owned(a, client) + Owned(b, client)
  {
    if a == [] {
      assert a + b == b;
    } else {
      assert (a + b)[0] == a[0] && (a + b)[1..] == a[1..] + b;
      OwnedAppend(a[1..], b, client);
      Regroup(if a[0].key.client == client then [a[0]] else [], Owned(a[1..], client), Owned(b, client));
    }
  }

  lemma OwnedOne(o: BookOrder, client: nat)
    ensures Owned([o], client) == if o.key.client == client then [o] else []
  {
    assert [o][1..] == [];
  }

  /** The owned orders are orders of the side, and all of the client's are owned. */
  lemma {:induction false} OwnedIn(s: seq<BookOrder>, client: nat)
    ensures forall o :: o in Owned(s, client) <==> o in s && o.key.client == client
  {
    if s != [] {
      OwnedIn(s[1..], client);
      assert s == [s[0]] + s[1..];
    }
  }

  lemma OwnedEnqueue(s: seq<BookOrder>, o: BookOrder, client: nat)
    requires Sorted(o.side, s)
    ensures o.key.client != client ==> Owned(Enqueue(s, o), client) == Owned(s, client)
    ensures o.key.client == client && Owned(s, client) == [] ==> Owned(Enqueue(s, o), client) == [o]
  {
    EnqueueSlot(s, o);
    var k := Slot(s, o);
    OwnedAppend(s[..k] + [o], s[k..], client);
    OwnedAppend(s[..k], [o], client);
    OwnedOne(o, client);
    OwnedAppend(s[..k], s[k..], client);
    assert s == s[..k] + s[k..];
  }

  lemma OwnedCut(a: seq<BookOrder>, x: BookOrder, b: seq<BookOrder>, client: nat)
    ensures Owned(a + [x] + b, client)
         == Owned(a, client) + (if x.key.client == client then [x] else []) + Owned(b, client)
    ensures Owned(a + b, client) == Owned(a, client) + Owned(b, client)
  {
    hide Owned;
    OwnedAppend(a + [x], b, client);
    OwnedAppend(a, [x], client);
    OwnedOne(x, client);
    OwnedAppend(a, b, client);
  }

  lemma OwnedDrop(s: seq<BookOrder>, k: nat, client: nat)
    requires k < |s| && DistinctKeys(s)
    ensures s[k].key.client != client ==> Owned(Drop(s, s[k].key), client) == Owned(s, client)
    ensures s[k].key.client == client && |Owned(s, client)| <= 1 ==>
              Owned(s, client) == [s[k]] && Owned(Drop(s, s[k].key), client) == []
  {
    hide Drop, Owned, DistinctKeys;
    DropCuts(s, k);
    SplitAt(s, k);
    OwnedCut(s[..k], s[k], s[k + 1..], client);
  }

  // ----- fills -----

  /** `p` reports fills of one order, each for something, that take its quantity from `qty` down to `left`. */
  ghost predicate FillsTo(qty: nat, p: seq<Response>, left: nat, ref: OrderRef)
    decreases |p|
  {
    if p == [] then qty == left
    else
      && p[0].kind == FILLED && p[0].ref == ref
      && p[0].execQty > 0 && p[0].execQty + p[0].leavesQty == qty
      && FillsTo(p[0].leavesQty, p[1..], left, ref)
  }

  /** At most one of the client's orders is hit, at most once, and what it is told is what happened to it. */
  ghost predicate Hit(before: seq<BookOrder>, p: seq<Response>, later: seq<BookOrder>) {
    if p == [] then later == before
    else
      && |before| == 1 && |p| == 1 && FillsTo(before[0].qty, p, p[0].leavesQty, before[0].key)
      && later == if p[0].leavesQty == 0 then [] else [before[0].(qty := p[0].leavesQty)]
  }

  lemma PairReports(t: nat, inc: BookOrder, head: BookOrder, fill: nat, client: nat)
    requires IsTradeSide(inc.side) && head.side == Opposite(inc.side) && fill <= inc.qty && fill <= head.qty
    ensures Mine(FillPair(t, inc, head, fill), client, t, inc.side)
         == if inc.key.client != client then []
            else [FillResponse(t, inc, Narrow(inc.oid), head.price, fill, inc.qty - fill)]
    ensures Mine(FillPair(t, inc, head, fill), client, t, Opposite(inc.side))
         == if head.key.client != client then []
            else [FillResponse(t, head, head.oid, head.price, fill, head.qty - fill)]
  {
    var pair := FillPair(t, inc, head, fill);
    MineTwo(pair[0], pair[1], client, t, inc.side);
    MineTwo(pair[0], pair[1], client, t, Opposite(inc.side));
    MineOne(pair[0], client, t, inc.side);
    MineOne(pair[1], client, t, inc.side);
    MineOne(pair[0], client, t, Opposite(inc.side));
    MineOne(pair[1], client, t, Opposite(inc.side));
  }

  /** What the owner of the incoming order is told by the matching loop. */
  lemma {:induction false} MatchTellsIncoming(t: nat, inc: BookOrder, opp: seq<BookOrder>, client: nat)
    requires IsTradeSide(inc.side) && Live(Opposite(inc.side), opp)
    ensures var m := MatchAll(t, inc, opp);
            var p := Mine(m.responses, client, t, inc.side);
            if inc.key.client == client then FillsTo(inc.qty, p, m.leaves, inc.key) else p == []
    decreases |opp|
  {
    if inc.qty == 0 || opp == [] || !Crosses(inc.side, inc.price, opp[0].price) {
    } else {
      var fill := Min(inc.qty, opp[0].qty);
      var one := MatchFront(t, inc, opp);
      PairReports(t, inc, opp[0], fill, client);
      if inc.qty >= opp[0].qty {
        var more := MatchAll(t, inc.(qty := one.leaves), opp[1..]);
        MatchTellsIncoming(t, inc.(qty := one.leaves), opp[1..], client);
        MineAppend(one.responses, more.responses, client, t, inc.side);
      } else {
        assert one.responses + [] == one.responses;
      }
    }
  }

  /** The front order is filled completely, and the rest of the side is matched further. */
  lemma FullHit(t: nat, inc: BookOrder, opp: seq<BookOrder>, client: nat, p: seq<Response>, rest: seq<BookOrder>)
    requires IsTradeSide(inc.side) && opp != [] && opp[0].side == Opposite(inc.side) && 0 < opp[0].qty <= inc.qty
    requires |Owned(opp, client)| <= 1 && Hit(Owned(opp[1..], client), p, rest)
    ensures Hit(Owned(opp, client), Mine(FillPair(t, inc, opp[0], opp[0].qty), client, t, Opposite(inc.side)) + p, rest)
  {
    PairReports(t, inc, opp[0], opp[0].qty, client);
  }

  lemma PartialHit(t: nat, inc: BookOrder, opp: seq<BookOrder>, client: nat)
    requires IsTradeSide(inc.side) && opp != [] && opp[0].side == Opposite(inc.side) && 0 < inc.qty < opp[0].qty
    requires |Owned(opp, client)| <= 1
    ensures Hit(Owned(opp, client), Mine(FillPair(t, inc, opp[0], inc.qty), client, t, Opposite(inc.side)),
                Owned([opp[0].(qty := opp[0].qty - inc.qty)] + opp[1..], client))
  {
    PairReports(t, inc, opp[0], inc.qty, client);
    assert ([opp[0].(qty := opp[0].qty - inc.qty)] + opp[1..])[1..] == opp[1..];
  }

  /** What the owner of a resting order is told. */
  lemma {:induction false} MatchTellsResting(t: nat, inc: BookOrder, opp: seq<BookOrder>, client: nat)
    requires IsTradeSide(inc.side) && Live(Opposite(inc.side), opp) && |Owned(opp, client)| <= 1
    ensures var m := MatchAll(t, inc, opp);
            Hit(Owned(opp, client), Mine(m.responses, client, t, Opposite(inc.side)), Owned(m.rest, client))
    decreases |opp|
  {
    hide Hit, FillPair, FillUpdates, MatchAll;
    if !Trades(inc, opp) {
      MatchStops(t, inc, opp);
      NotHit(Owned(opp, client));
    } else if inc.qty >= opp[0].qty {
      var inc' := inc.(qty := inc.qty - opp[0].qty);
      var more := MatchAll(t, inc', opp[1..]);
      MatchGoesOn(t, inc, opp);
      MatchTellsResting(t, inc', opp[1..], client);
      MineAppend(FillPair(t, inc, opp[0], opp[0].qty), more.responses, client, t, Opposite(inc.side));
      FullHit(t, inc, opp, client, Mine(more.responses, client, t, Opposite(inc.side)), Owned(more.rest, client));
    } else {
      MatchEndsInside(t, inc, opp);
      PartialHit(t, inc, opp, client);
    }
  }

  lemma NotHit(own: seq<BookOrder>)
    ensures Hit(own, [], own)
  {
  }

  // ----- one request -----

  /** The one order of a client that just came to rest. */
  ghost predicate Rests(s: seq<BookOrder>, ref: OrderRef, side: Side, price: int, qty: nat) {
    if qty == 0 then s == []
    else |s| == 1 && s[0].key == ref && s[0].side == side && s[0].price == price && s[0].qty == qty
  }

  /** What a NEW tells its sender: an acknowledgement, then fills down to what rests. */
  ghost predicate TellsSender(p: seq<Response>, later: seq<BookOrder>, r: Request) {
    && p != [] && p[0].kind == ACCEPTED && p[0].ref == r.ref
    && exists left: nat :: FillsTo(r.qty, p[1..], left, r.ref) && Rests(later, r.ref, r.side, r.price, left)
  }

  lemma AddTellsFacing(b: Book, r: Request, client: nat)
    requires Good(b) && IsTradeSide(r.side) && |Owned(b.On(Opposite(r.side)), client)| <= 1
    ensures var s, opp := Add(b, r.ticker, r.ref, r.side, r.price, r.qty), Opposite(r.side);
            Hit(Owned(b.On(opp), client), Mine(s.responses, client, r.ticker, opp), Owned(s.book.On(opp), client))
  {
    hide MatchAll, Enqueue, Hit, Mine, Owned;
    var inc := Incoming(b, r.ref, r.side, r.price, r.qty);
    var opp := b.On(Opposite(r.side));
    MatchTellsResting(r.ticker, inc, opp, client);
    MineAppend([AcceptedResponse(r.ticker, inc)], MatchAll(r.ticker, inc, opp).responses, client, r.ticker,
        Opposite(r.side));
    MineOne(AcceptedResponse(r.ticker, inc), client, r.ticker, Opposite(r.side));
    var all := MatchAll(r.ticker, inc, opp).responses;
    assert Mine([AcceptedResponse(r.ticker, inc)] + all, client, r.ticker, Opposite(r.side))
        == Mine(all, client, r.ticker, Opposite(r.side));
  }

  lemma AddTellsOwn(b: Book, r: Request, client: nat)
    requires Good(b) && IsTradeSide(r.side)
    ensures var s := Add(b, r.ticker, r.ref, r.side, r.price, r.qty);
            var p, later := Mine(s.responses, client, r.ticker, r.side), Owned(s.book.On(r.side), client);
            && (r.ref.client != client ==> p == [] && later == Owned(b.On(r.side), client))
            && (r.ref.client == client && Owned(b.On(r.side), client) == [] ==> TellsSender(p, later, r))
  {
    hide MatchAll, Enqueue;
    var inc := Incoming(b, r.ref, r.side, r.price, r.qty);
    var m := MatchAll(r.ticker, inc, b.On(Opposite(r.side)));
    MatchTellsIncoming(r.ticker, inc, b.On(Opposite(r.side)), client);
    MineAppend([AcceptedResponse(r.ticker, inc)], m.responses, client, r.ticker, r.side);
    MineOne(AcceptedResponse(r.ticker, inc), client, r.ticker, r.side);
    var s := Add(b, r.ticker, r.ref, r.side, r.price, r.qty);
    if m.leaves > 0 {
      OwnedEnqueue(b.On(r.side), inc.(qty := m.leaves, priority := NextPriority(b.On(r.side), r.price)), client);
    }
    if r.ref.client == client && Owned(b.On(r.side), client) == [] {
      assert Rests(Owned(s.book.On(r.side), client), r.ref, r.side, r.price, m.leaves);
    }
  }

  /** What a CANCEL does to a client's order on a side, and tells it: everything if it names that
      order, nothing otherwise. A refusal carries no side, so it is about no order. */
  lemma CancelTells(b: Book, t: nat, ref: OrderRef, client: nat, side: Side)
    requires Good(b) && IsTradeSide(side) && |Owned(b.On(side), client)| <= 1
    ensures var s, own := Cancel(b, t, ref), Owned(b.On(side), client);
            var p, later := Mine(s.responses, client, t, side), Owned(s.book.On(side), client);
            if own != [] && own[0].key == ref then p == [CanceledResponse(t, own[0])] && later == []
            else p == [] && later == own
  {
    hide Drop, Good, Owned, Mine, Lookup, MatchAll;
    match Lookup(b, ref)
    case None =>
      MineOne(RejectedResponse(t, ref), client, t, side);
      NotOwned(b, ref, client, side);
    case Some(o) =>
      MineOne(CanceledResponse(t, o), client, t, side);
      var k := LookupFinds(b, ref);
      GoodSideOf(b, o.side);
      OwnedDrop(b.On(o.side), k, client);
      if o.side == side {
        OnlyOneNamed(b, side, k, client);
      } else {
        NamedElsewhere(b, o, k, client, side);
      }
  }

  lemma GoodSideOf(b: Book, side: Side)
    requires Good(b) && IsTradeSide(side)
    ensures DistinctKeys(b.On(side))
  {
    GoodFromEither(b, side);
  }

  lemma NotOwned(b: Book, ref: OrderRef, client: nat, side: Side)
    requires Lookup(b, ref) == None && IsTradeSide(side)
    ensures Owned(b.On(side), client) != [] ==> Owned(b.On(side), client)[0].key != ref
  {
    OwnedIn(b.On(side), client);
    if Owned(b.On(side), client) != [] {
      assert Owned(b.On(side), client)[0] in Owned(b.On(side), client);
    }
  }

  lemma NamedElsewhere(b: Book, o: BookOrder, k: nat, client: nat, side: Side)
    requires Good(b) && IsTradeSide(side) && IsTradeSide(o.side) && o.side != side
    requires k < |b.On(o.side)| && b.On(o.side)[k] == o
    ensures Owned(b.On(side), client) != [] ==> Owned(b.On(side), client)[0].key != o.key
  {
    OwnedIn(b.On(side), client);
    GoodFromEither(b, side);
    var own := Owned(b.On(side), client);
    if own != [] {
      assert own[0] in own;
      var j :| 0 <= j < |b.On(side)| && b.On(side)[j] == own[0];
      assert Clear(side, b.On(side)[j], b.On(o.side)[k]);
    }
  }

  lemma OnlyOneNamed(b: Book, side: Side, k: nat, client: nat)
    requires Good(b) && IsTradeSide(side) && k < |b.On(side)| && |Owned(b.On(side), client)| <= 1
    ensures var own, x := Owned(b.On(side), client), b.On(side)[k];
            && (own != [] && own[0].key == x.key ==> own[0] == x && x.key.client == client)
            && (x.key.client == client ==> own == [x])
  {
    GoodFromEither(b, side);
    OwnedIn(b.On(side), client);
    var own := Owned(b.On(side), client);
    if own != [] {
      assert own[0] in own;
    }
    if b.On(side)[k].key.client == client {
      assert b.On(side)[k] in own;
    }
  }
}
