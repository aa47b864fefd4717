/** The market ids in the exchange's reports: which reports could carry a wrong one, and why none does. */
module Reporting {
  import opened Common
  import opened Matching
  import opened BookInvariant
  import opened Venue
  import opened EndToEnd
  import Following
  import Ladder

  /** The 32-bit parameter of `match` (me_order_book.cpp:216) keeps exactly the ids that fit it. */
  lemma NarrowIsExact(oid: nat)
    ensures Narrow(oid) == oid <==> oid < 0x1_0000_0000
  {
  }

  /** An order of this name was acknowledged on instrument `t` under this market id. */
  ghost predicate Acknowledged(rs: seq<Response>, ref: OrderRef, t: nat, oid: nat) {
    exists i :: 0 <= i < |rs| && rs[i].kind == ACCEPTED && rs[i].ref == ref && rs[i].ticker == t && rs[i].oid == oid
  }

  lemma StaysAcknowledged(rs: seq<Response>, more: seq<Response>, ref: OrderRef, t: nat, oid: nat)
    requires Acknowledged(rs, ref, t, oid) || Acknowledged(more, ref, t, oid)
    ensures Acknowledged(rs + more, ref, t, oid)
  {
    if Acknowledged(rs, ref, t, oid) {
      var i :| 0 <= i < |rs| && rs[i].kind == ACCEPTED && rs[i].ref == ref && rs[i].ticker == t && rs[i].oid == oid;
      assert (rs + more)[i] == rs[i];
    } else {
      var i :| 0 <= i < |more| && more[i].kind == ACCEPTED && more[i].ref == ref && more[i].ticker == t
               && more[i].oid == oid;
      assert (rs + more)[|rs| + i] == more[i];
    }
  }

  /** A report of a fill or a cancellation names an order by the id under which it was acknowledged. */
  ghost predicate True(rs: seq<Response>, r: Response) {
    r.kind == FILLED || r.kind == CANCELED ==> Acknowledged(rs, r.ref, r.ticker, r.oid)
  }

  ghost predicate AllTrue(rs: seq<Response>, some: seq<Response>) {
    forall i :: 0 <= i < |some| ==> True(rs, some[i])
  }

  ghost predicate AllAcknowledged(rs: seq<Response>, t: nat, s: seq<BookOrder>) {
    forall o :: o in s ==> Acknowledged(rs, o.key, t, o.oid)
  }

  /** Every report so far is true, and every resting order was acknowledged. */
  ghost predicate Reported(e: Engine) {
    && AllTrue(e.responses, e.responses)
    && forall t :: 0 <= t < |e.books| ==>
         AllAcknowledged(e.responses, t, e.books[t].bids) && AllAcknowledged(e.responses, t, e.books[t].asks)
  }

  lemma AllTrueAppend(rs: seq<Response>, a: seq<Response>, b: seq<Response>)
    requires AllTrue(rs, a) && AllTrue(rs, b)
    ensures AllTrue(rs, a + b)
  {
  }

  lemma AllTrueLater(rs: seq<Response>, more: seq<Response>, some: seq<Response>)
    requires AllTrue(rs, some)
    ensures AllTrue(rs + more, some)
  {
    forall i | 0 <= i < |some|
      ensures True(rs + more, some[i])
    {
      assert True(rs, some[i]);
      if some[i].kind == FILLED || some[i].kind == CANCELED {
        StaysAcknowledged(rs, more, some[i].ref, some[i].ticker, some[i].oid);
      }
    }
  }

  lemma AcknowledgedLater(rs: seq<Response>, more: seq<Response>, t: nat, s: seq<BookOrder>)
    requires AllAcknowledged(rs, t, s)
    ensures AllAcknowledged(rs + more, t, s)
  {
    forall o | o in s
      ensures Acknowledged(rs + more, o.key, t, o.oid)
    {
      StaysAcknowledged(rs, more, o.key, t, o.oid);
    }
  }

  /** The matching loop reports true ids if the incoming order's id fits 32 bits. */
  lemma {:induction false} MatchIsTrue(rs: seq<Response>, t: nat, inc: BookOrder, opp: seq<BookOrder>)
    requires Acknowledged(rs, inc.key, t, inc.oid) && AllAcknowledged(rs, t, opp) && inc.oid < 0x1_0000_0000
    ensures AllTrue(rs, MatchAll(t, inc, opp).responses) && AllAcknowledged(rs, t, MatchAll(t, inc, opp).rest)
    decreases |opp|
  {
    hide MatchAll, FillUpdates, Acknowledged;
    if !Trades(inc, opp) {
      MatchStops(t, inc, opp);
    } else if inc.qty >= opp[0].qty {
      var inc' := inc.(qty := inc.qty - opp[0].qty);
      MatchGoesOn(t, inc, opp);
      PairIsTrue(rs, t, inc, opp[0], opp[0].qty);
      MatchIsTrue(rs, t, inc', opp[1..]);
      AllTrueAppend(rs, FillPair(t, inc, opp[0], opp[0].qty), MatchAll(t, inc', opp[1..]).responses);
    } else {
      MatchEndsInside(t, inc, opp);
      PairIsTrue(rs, t, inc, opp[0], inc.qty);
    }
  }

  lemma PairIsTrue(rs: seq<Response>, t: nat, inc: BookOrder, head: BookOrder, fill: nat)
    requires Acknowledged(rs, inc.key, t, inc.oid) && Acknowledged(rs, head.key, t, head.oid)
    requires inc.oid < 0x1_0000_0000 && fill <= inc.qty && fill <= head.qty
    ensures AllTrue(rs, FillPair(t, inc, head, fill))
  {
    hide Acknowledged;
    NarrowIsExact(inc.oid);
  }

  lemma AddIsTrue(rs: seq<Response>, b: Book, r: Request)
    requires r.kind == NEW && IsTradeSide(r.side) && b.nextOid < 0x1_0000_0000
    requires AllAcknowledged(rs, r.ticker, b.bids) && AllAcknowledged(rs, r.ticker, b.asks)
    ensures var s := Process(b, r);
            && AllTrue(rs + s.responses, s.responses)
            && AllAcknowledged(rs + s.responses, r.ticker, s.book.bids)
            && AllAcknowledged(rs + s.responses, r.ticker, s.book.asks)
  {
    hide MatchAll, Acknowledged, Ladder.Enqueue, Ladder.NextPriority;
    var t, s := r.ticker, Process(b, r);
    var inc := Incoming(b, r.ref, r.side, r.price, r.qty);
    var own, opp := b.On(r.side), b.On(Opposite(r.side));
    var all := rs + s.responses;
    Opening(rs, b, r);
    AcknowledgedLater(rs, s.responses, t, b.bids);
    AcknowledgedLater(rs, s.responses, t, b.asks);
    MatchIsTrue(all, t, inc, opp);
    AllTrueAppend(all, [AcceptedResponse(t, inc)], MatchAll(t, inc, opp).responses);
    if MatchAll(t, inc, opp).leaves > 0 {
      var o := inc.(qty := MatchAll(t, inc, opp).leaves, priority := Ladder.NextPriority(own, r.price));
      Following.EnqueueMembers(own, o);
    }
  }

  /** The first response acknowledges the order. */
  lemma Opening(rs: seq<Response>, b: Book, r: Request)
    requires r.kind == NEW
    ensures Acknowledged(rs + Process(b, r).responses, r.ref, r.ticker, b.nextOid)
  {
    hide MatchAll;
    assert Process(b, r).responses[0].kind == ACCEPTED;
    assert Acknowledged(Process(b, r).responses, r.ref, r.ticker, b.nextOid);
    StaysAcknowledged(rs, Process(b, r).responses, r.ref, r.ticker, b.nextOid);
  }

  lemma CancelIsTrue(rs: seq<Response>, b: Book, r: Request)
    requires r.kind == CANCEL && Good(b)
    requires AllAcknowledged(rs, r.ticker, b.bids) && AllAcknowledged(rs, r.ticker, b.asks)
    ensures var s := Process(b, r);
            && AllTrue(rs + s.responses, s.responses)
            && AllAcknowledged(rs + s.responses, r.ticker, s.book.bids)
            && AllAcknowledged(rs + s.responses, r.ticker, s.book.asks)
  {
    hide Acknowledged, Lookup;
    var s := Process(b, r);
    AcknowledgedLater(rs, s.responses, r.ticker, b.bids);
    AcknowledgedLater(rs, s.responses, r.ticker, b.asks);
    if Lookup(b, r.ref).Some? {
      var o := Lookup(b, r.ref).value;
      var k := LookupFinds(b, r.ref);
      DropMembers(b.On(o.side), r.ref);
    }
  }

  lemma {:induction false} DropMembers(s: seq<BookOrder>, key: OrderRef)
    ensures forall x :: x in Ladder.Drop(s, key) ==> x in s
  {
    if s != [] {
      DropMembers(s[1..], key);
    }
  }

  lemma ServeReports(e: Engine, r: Request)
    requires Accepts(e, r) && Good(e.books[r.ticker]) && Reported(e) && e.books[r.ticker].nextOid < 0x1_0000_0000
    ensures Reported(Serve(e, r))
  {
    hide Process, Good, Acknowledged, True, AllTrue, AllAcknowledged;
    var b, e' := e.books[r.ticker], Serve(e, r);
    var more := Process(b, r).responses;
    match r.kind {
      case NEW => AddIsTrue(e.responses, b, r);
      case CANCEL => CancelIsTrue(e.responses, b, r);
    }
    AllTrueLater(e.responses, more, e.responses);
    AllTrueAppend(e.responses + more, e.responses, more);
    forall t | 0 <= t < |e'.books|
      ensures AllAcknowledged(e'.responses, t, e'.books[t].bids) && AllAcknowledged(e'.responses, t, e'.books[t].asks)
    {
      if t != r.ticker {
        AcknowledgedLater(e.responses, more, t, e.books[t].bids);
        AcknowledgedLater(e.responses, more, t, e.books[t].asks);
      }
    }
  }

  /** Over any accepted requests, fewer than 2^32 of them, every report of a fill or a cancellation names
      its order by the market id under which that order was acknowledged. */
  lemma {:induction false} ReportsAreTrue(rs: seq<Request>)
    requires Accepted(rs) && |rs| < 0x1_0000_0000
    ensures Reported(ServeAll(rs))
    decreases |rs|
  {
    hide Process, AllTrue, AllAcknowledged;
    if rs == [] {
      NothingReported();
    } else {
      var before, r := rs[..|rs| - 1], rs[|rs| - 1];
      ReportsAreTrue(before);
      IdsStaySmall(before);
      LogDescribesBooks(before);
      assert Described(ServeAll(before), r.ticker);
      ServeReports(ServeAll(before), r);
    }
  }

  lemma NothingReported()
    ensures Reported(InitEngine())
  {
  }
}
