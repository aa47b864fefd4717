/** When what is left of an order finds a place in the exchange's book. */
module Placing {
  import opened Common
  import opened PriceSlots
  import opened Matching
  import opened BookInvariant

  /** If something of a NEW will be left once it has matched, there is a place for that: its price slot
      holds no other price, and the two pools of the book have the blocks. */
  ghost predicate CanRest(b: Book, ticker: nat, ref: OrderRef, side: Side, price: int, qty: nat) {
    var own, m := b.On(side), MatchAll(ticker, Incoming(b, ref, side, price, qty), b.On(Opposite(side)));
    m.leaves > 0 ==>
      && PriceFree(own, price) && PriceFree(m.rest, price)
      && HasRoom(own, m.rest, price, ME_MAX_PRICE_LEVELS, ME_MAX_ORDER_IDS)
  }

  /** What is left after matching has a price slot and a name of its own: the opposite side is not in
      that slot, because it does not cross. */
  lemma RestFits(b: Book, ticker: nat, inc: BookOrder)
    requires Good(b) && IsTradeSide(inc.side) && inc == Incoming(b, inc.key, inc.side, inc.price, inc.qty)
    requires Lookup(b, inc.key) == None && CanRest(b, ticker, inc.key, inc.side, inc.price, inc.qty)
    requires MatchAll(ticker, inc, b.On(Opposite(inc.side))).leaves > 0
    ensures var own, rest := b.On(inc.side), MatchAll(ticker, inc, b.On(Opposite(inc.side))).rest;
            SlotFits(own, rest, inc.price) && Unnamed(own, inc.key) && Unnamed(rest, inc.key)
  {
    hide MatchAll;
    var opp := b.On(Opposite(inc.side));
    var rest := MatchAll(ticker, inc, opp).rest;
    GoodFromEither(b, Opposite(inc.side));
    MatchStopsUncrossed(ticker, inc, opp);
    MatchLeavesRemainder(ticker, inc, opp);
    forall i | 0 <= i < |rest|
      ensures rest[i].key != inc.key && PriceToIndex(rest[i].price) != PriceToIndex(inc.price)
    {
      assert Reduced(rest[i], opp[|opp| - |rest| + i]);
    }
  }
}
