/** The matching engine: dispatches client requests to one order book per instrument. */
module Engine {
  import opened Common
  import opened BookHeap
  import opened Matching
  import opened Placing
  import opened OrderRings
  import opened OrderBook
  import opened Venue

  class MatchingEngine {
    const outbox: Outbox
    const books: seq<MEOrderBook>
    ghost const all: set<object>
    ghost var state: Venue.Engine

    ghost predicate Valid()
      reads this, outbox, all
    {
      && |books| == |state.books| == ME_MAX_TICKERS && outbox !in all && this !in all
      && (forall i, j :: 0 <= i < j < |books| ==> books[i].Own() !! books[j].Own())
      && (forall i :: 0 <= i < |books| ==> BookAt(i))
      && outbox.responses == state.responses && outbox.updates == state.log
    }

    /** Book `i` is in order and in the recorded state. */
    ghost predicate BookAt(i: nat)
      requires i < |books| == |state.books|
      reads this, outbox, all
    {
      && books[i].Own() <= all && books[i].engine == outbox && books[i].tickerId == i
      && books[i].Valid() && books[i].State() == state.books[i]
    }

    constructor ()
      ensures Valid() && state == InitEngine()
      ensures fresh(outbox) && fresh(all)
    {
      hide OrderRings.Valid, WellFormed, Good;
      var sent := new Outbox();
      var bs, own := CreateBooks(sent);
      outbox, books, all, state := sent, bs, own, InitEngine();
    }

    /** One empty book for each instrument. */
    static method CreateBooks(sent: Outbox) returns (bs: seq<MEOrderBook>, ghost own: set<object>)
      ensures |bs| == ME_MAX_TICKERS && fresh(own)
      ensures forall i, j :: 0 <= i < j < |bs| ==> bs[i].Own() !! bs[j].Own()
      ensures forall i :: 0 <= i < |bs| ==>
                && bs[i].Own() <= own && bs[i].engine == sent && bs[i].tickerId == i
                && bs[i].Valid() && bs[i].State() == EMPTY_BOOK
    {
      hide OrderRings.Valid, WellFormed, Good;
      bs, own := [], {};
      while |bs| < ME_MAX_TICKERS
        invariant |bs| <= ME_MAX_TICKERS && fresh(own)
        invariant forall i, j :: 0 <= i < j < |bs| ==> bs[i].Own() !! bs[j].Own()
        invariant forall i :: 0 <= i < |bs| ==>
                    && bs[i].Own() <= own && bs[i].engine == sent && bs[i].tickerId == i
                    && bs[i].Valid() && bs[i].State() == EMPTY_BOOK
      {
        var book := new MEOrderBook(|bs|, sent);
        bs := bs + [book];
        own := own + book.Own();
      }
    }

    method ProcessClientRequest(r: Request)
      requires Valid() && Accepts(state, r)
      requires r.kind == NEW ==> CanRest(state.books[r.ticker], r.ticker, r.ref, r.side, r.price, r.qty)
      modifies this`state, outbox, all
      ensures Valid() && state == Serve(old(state), r)
    {
      hide OrderRings.Valid, WellFormed, Good, Matching.Add, Matching.Cancel, Lookup, CanRest;
      var book := books[r.ticker];
      ghost var s := Process(state.books[r.ticker], r);
      assert BookAt(r.ticker);
      match r.kind {
        case NEW => book.Add(r.ref, r.side, r.price, r.qty);
        // Repair: matching_engine.cpp:68-73 has no `break` here and falls into FATAL.
        case CANCEL => book.Cancel(r.ref);
      }
      state := Serve(state, r);
      forall i | 0 <= i < |books|
        ensures BookAt(i)
      {
        assert old(BookAt(i)) && (i < r.ticker ==> books[i].Own() !! book.Own())
            && (r.ticker < i ==> book.Own() !! books[i].Own());
      }
    }
  }
}
