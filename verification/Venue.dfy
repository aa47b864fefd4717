/** The matching engine: one book per instrument, one stream of updates for all of them. */
module Venue {
  import opened Common
  import opened Matching
  import opened BookInvariant
  import opened Replica
  import opened UpdateStream

  /** Books by instrument, and everything sent so far. */
  datatype Engine = Engine(books: seq<Book>, responses: seq<Response>, log: seq<Update>)

  function InitEngine(): Engine {
    Engine(seq(ME_MAX_TICKERS, _ => EMPTY_BOOK), [], [])
  }

  /** A request for a listed instrument that its book admits. */
  ghost predicate Accepts(e: Engine, r: Request) {
    r.ticker < |e.books| && Admissible(e.books[r.ticker], r)
  }

  function Serve(e: Engine, r: Request): Engine {
    if r.ticker >= |e.books| then e
    else
      var s := Process(e.books[r.ticker], r);
      Engine(e.books[r.ticker := s.book], e.responses + s.responses, e.log + s.updates)
  }

  /** The engine after serving `rs` in order. */
  function ServeAll(rs: seq<Request>): Engine
    decreases |rs|
  {
    if rs == [] then InitEngine() else Serve(ServeAll(rs[..|rs| - 1]), rs[|rs| - 1])
  }

  /** Every request of `rs` is accepted when its turn comes. */
  ghost predicate Accepted(rs: seq<Request>)
    decreases |rs|
  {
    rs == [] || (Accepted(rs[..|rs| - 1]) && Accepts(ServeAll(rs[..|rs| - 1]), rs[|rs| - 1]))
  }

  // ----- updates of one instrument do not touch the others -----

  lemma {:induction false} OtherTickersUnmoved(t: nat, v: View, other: nat, us: seq<Update>)
    requires AllFor(other, us) && other != t
    ensures ApplyAll(t, v, us) == v && LegalFrom(t, v, us)
    decreases |us|
  {
    if us != [] {
      OtherTickersUnmoved(t, v, other, us[..|us| - 1]);
    }
  }

  // ----- the log describes every book -----

  ghost predicate Described(e: Engine, t: nat)
    requires t < |e.books|
  {
    && Good(e.books[t])
    && LegalFrom(t, EMPTY_VIEW, e.log)
    && Replay(t, e.log) == Outside(e.books[t])
  }

  lemma ServeDescribes(e: Engine, r: Request, t: nat)
    requires Accepts(e, r) && t < |e.books| && Described(e, t)
    requires Good(e.books[r.ticker])
    ensures Described(Serve(e, r), t)
  {
    var b := e.books[r.ticker];
    var us := Process(b, r).updates;
    ApplyAppend(t, EMPTY_VIEW, e.log, us);
    if r.ticker == t {
      ProcessKeepsGood(b, r);
      ProcessFollows(b, r);
      ProcessIsLegal(b, r);
    } else {
      ProcessTicker(b, r);
      OtherTickersUnmoved(t, Replay(t, e.log), r.ticker, us);
    }
    LegalAppend(t, EMPTY_VIEW, e.log, us);
  }

  /** Replication refines matching over whole runs: after any admissible requests, in any
      interleaving of instruments, folding the updates sent so far into an empty copy gives for
      every instrument the levels, queue order, quantities and priorities of the exchange's book;
      every book is good and the stream is legal throughout. */
  lemma {:induction false} LogDescribesBooks(rs: seq<Request>)
    requires Accepted(rs)
    ensures |ServeAll(rs).books| == ME_MAX_TICKERS
    ensures forall t: nat :: t < ME_MAX_TICKERS ==> Described(ServeAll(rs), t)
    decreases |rs|
  {
    if rs == [] {
      assert Good(EMPTY_BOOK);
      assert Outside(EMPTY_BOOK) == EMPTY_VIEW;
    } else {
      var r, p := rs[|rs| - 1], ServeAll(rs[..|rs| - 1]);
      LogDescribesBooks(rs[..|rs| - 1]);
      assert Described(p, r.ticker);
      forall t: nat | t < ME_MAX_TICKERS
        ensures Described(ServeAll(rs), t)
      {
        ServeDescribes(p, r, t);
      }
    }
  }

  // ----- one instrument among many -----

  /** The requests for one instrument. */
  function RequestsFor(rs: seq<Request>, t: nat): seq<Request>
    decreases |rs|
  {
    if rs == [] then []
    else RequestsFor(rs[..|rs| - 1], t) + (if rs[|rs| - 1].ticker == t then [rs[|rs| - 1]] else [])
  }

  function ResponsesFor(rs: seq<Response>, t: nat): seq<Response>
    decreases |rs|
  {
    if rs == [] then []
    else ResponsesFor(rs[..|rs| - 1], t) + (if rs[|rs| - 1].ticker == t then [rs[|rs| - 1]] else [])
  }

  function UpdatesFor(us: seq<Update>, t: nat): seq<Update>
    decreases |us|
  {
    if us == [] then []
    else UpdatesFor(us[..|us| - 1], t) + (if us[|us| - 1].ticker == t then [us[|us| - 1]] else [])
  }

  /** A book that serves these requests one after the other, and everything it sends. */
  function Alone(rs: seq<Request>): Step
    decreases |rs|
  {
    if rs == [] then Step(EMPTY_BOOK, [], [])
    else
      var before := Alone(rs[..|rs| - 1]);
      var s := Process(before.book, rs[|rs| - 1]);
      Step(s.book, before.responses + s.responses, before.updates + s.updates)
  }

  lemma {:induction false} ResponsesForMore(rs: seq<Response>, more: seq<Response>, r: nat, t: nat)
    requires AllAbout(r, more)
    ensures ResponsesFor(rs + more, t) == ResponsesFor(rs, t) + if r == t then more else []
    decreases |more|
  {
    if more == [] {
      assert rs + more == rs;
    } else {
      var n := |more| - 1;
      assert (rs + more)[..|rs + more| - 1] == rs + more[..n];
      ResponsesForMore(rs, more[..n], r, t);
    }
  }

  lemma {:induction false} UpdatesForMore(us: seq<Update>, more: seq<Update>, r: nat, t: nat)
    requires AllFor(r, more)
    ensures UpdatesFor(us + more, t) == UpdatesFor(us, t) + if r == t then more else []
    decreases |more|
  {
    if more == [] {
      assert us + more == us;
    } else {
      var n := |more| - 1;
      assert (us + more)[..|us + more| - 1] == us + more[..n];
      UpdatesForMore(us, more[..n], r, t);
    }
  }

  /** Every request is served, by the book of its instrument, and no instrument notices another: after any
      requests each book is what serving the requests for its instrument alone makes of it, and the responses
      and updates for the instrument are those that this sends, in order. */
  lemma {:induction false} InstrumentsKeepApart(rs: seq<Request>, t: nat)
    requires t < ME_MAX_TICKERS && forall i :: 0 <= i < |rs| ==> rs[i].ticker < ME_MAX_TICKERS
    ensures var e, alone := ServeAll(rs), Alone(RequestsFor(rs, t));
            && |e.books| == ME_MAX_TICKERS && e.books[t] == alone.book
            && ResponsesFor(e.responses, t) == alone.responses && UpdatesFor(e.log, t) == alone.updates
    decreases |rs|
  {
    hide Process;
    if rs != [] {
      var before, r := rs[..|rs| - 1], rs[|rs| - 1];
      var e := ServeAll(before);
      InstrumentsKeepApart(before, t);
      ProcessTicker(e.books[r.ticker], r);
      ResponsesForMore(e.responses, Process(e.books[r.ticker], r).responses, r.ticker, t);
      UpdatesForMore(e.log, Process(e.books[r.ticker], r).updates, r.ticker, t);
      if r.ticker == t {
        assert (RequestsFor(before, t) + [r])[..|RequestsFor(before, t)|] == RequestsFor(before, t);
      } else {
        assert RequestsFor(before, t) + [] == RequestsFor(before, t);
      }
    }
  }

  /** The book is never crossed at rest: every bid is priced below every ask. */
  lemma NeverCrossed(rs: seq<Request>, t: nat, i: nat, j: nat)
    requires Accepted(rs) && t < ME_MAX_TICKERS
    ensures |ServeAll(rs).books| == ME_MAX_TICKERS
    ensures var b := ServeAll(rs).books[t];
            i < |b.bids| && j < |b.asks| ==> b.bids[i].price < b.asks[j].price
  {
    LogDescribesBooks(rs);
    assert Described(ServeAll(rs), t);
    var b := ServeAll(rs).books[t];
    if i < |b.bids| && j < |b.asks| {
      assert Clear(BUY, b.bids[i], b.asks[j]);
    }
  }
}
