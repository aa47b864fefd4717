/** The matching loop with its SELL comparison as written, and the exact condition under which the
    comparison makes no difference. */
module Crossing {
  import opened Common
  import opened Ladder
  import opened Matching
  import opened TopOfBook

  /** me_order_book.cpp:232 stops a SELL when its price is below the best bid. */
  predicate CrossesAsWritten(side: Side, price: int, resting: int) {
    price >= resting
  }

  function MatchAllAsWritten(ticker: nat, inc: BookOrder, opp: seq<BookOrder>): Match
    decreases |opp|
  {
    if inc.qty == 0 || opp == [] || !CrossesAsWritten(inc.side, inc.price, opp[0].price) then
      Match(opp, inc.qty, [], [])
    else
      var one := MatchFront(ticker, inc, opp);
      var more := if inc.qty >= opp[0].qty then MatchAllAsWritten(ticker, inc.(qty := one.leaves), opp[1..])
                  else Match(one.rest, 0, [], []);
      more.(responses := one.responses + more.responses, updates := one.updates + more.updates)
  }

  ghost predicate AllAt(s: seq<BookOrder>, price: int) {
    forall i :: 0 <= i < |s| ==> s[i].price == price
  }

  lemma SamePrefix<T>(p: seq<T>, a: seq<T>, b: seq<T>)
    ensures p + a == p + b <==> a == b
  {
    assert (p + a)[|p|..] == a && (p + b)[|p|..] == b;
  }

  /** A SELL is matched as it should be exactly when there is nothing to match, or the best bid is
      priced at its limit and what is bid there is enough for it or is all that is bid. */
  lemma {:induction false} SellAsWritten(ticker: nat, inc: BookOrder, bids: seq<BookOrder>)
    requires inc.side == SELL && Live(BUY, bids)
    ensures MatchAllAsWritten(ticker, inc, bids) == MatchAll(ticker, inc, bids) <==>
            || inc.qty == 0 || bids == []
            || (bids[0].price == inc.price && (inc.qty <= RunQty(bids, inc.price) || AllAt(bids, inc.price)))
    decreases |bids|
  {
    hide FillPair, FillUpdates;
    if inc.qty > 0 && bids != [] {
      var one := MatchFront(ticker, inc, bids);
      if bids[0].price != inc.price {
        FillsSomething(ticker, inc, bids);
      } else if inc.qty >= bids[0].qty {
        var inc' := inc.(qty := one.leaves);
        SellAsWritten(ticker, inc', bids[1..]);
        var a, b := MatchAllAsWritten(ticker, inc', bids[1..]), MatchAll(ticker, inc', bids[1..]);
        SamePrefix(one.responses, a.responses, b.responses);
        SamePrefix(one.updates, a.updates, b.updates);
        TailAt(bids, inc.price);
      }
    }
  }

  lemma TailAt(s: seq<BookOrder>, price: int)
    requires s != [] && s[0].price == price
    ensures AllAt(s, price) <==> AllAt(s[1..], price)
    ensures s[1..] != [] && AllAt(s[1..], price) ==> s[1].price == price
  {
  }

  lemma FillsSomething(ticker: nat, inc: BookOrder, opp: seq<BookOrder>)
    requires inc.qty > 0 && opp != []
    ensures MatchFront(ticker, inc, opp).responses != []
  {
  }
}
