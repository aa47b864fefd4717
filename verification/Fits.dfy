/** When a client's pointer book has a place for an order it is told of. */
module Fits {
  import opened Common
  import opened PriceSlots
  import opened Replica

  /** An order that is added finds its price slot to itself and a free block in the client's pools, which
      are of equal size. */
  ghost predicate Fitting(v: View, u: Update) {
    u.kind == ADD ==>
      && SlotFits(v.On(u.side), v.On(Opposite(u.side)), u.price)
      && |v.bids| + |v.asks| < ME_MAX_ORDER_IDS - 1
  }

  /** From `v` on, there is a place for every order of `us` for instrument `t`. */
  ghost predicate FittingFrom(t: nat, v: View, us: seq<Update>)
    decreases |us|
  {
    us == [] ||
    var n := |us| - 1;
    FittingFrom(t, v, us[..n]) && (us[n].ticker == t ==> Fitting(ApplyAll(t, v, us[..n]), us[n]))
  }
}
