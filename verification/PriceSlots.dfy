/** Price slots and pool capacities: what has to be true of a book for an order to find a place in it. */
module PriceSlots {
  import opened Common

  /** Prices share the slots of the level index: `price % ME_MAX_PRICE_LEVELS`. */
  function PriceToIndex(price: int): (i: nat)
    ensures i < ME_MAX_PRICE_LEVELS
  {
    price % ME_MAX_PRICE_LEVELS
  }

  const UINT64_RANGE: nat := 0x1_0000_0000_0000_0000

  /** A 64-bit price reinterpreted as an unsigned number. */
  function AsUint64(price: int): (r: nat)
    requires -0x8000_0000_0000_0000 <= price < 0x8000_0000_0000_0000
  {
    if price < 0 then price + UINT64_RANGE else price
  }

  /** The source takes the remainder of the price converted to an unsigned 64-bit number. That is the slot,
      for negative prices too, and prices share a slot exactly when they differ by a multiple of its size. */
  lemma PriceSlot(price: int, other: int)
    requires -0x8000_0000_0000_0000 <= price < 0x8000_0000_0000_0000
    ensures PriceToIndex(price) == AsUint64(price) % ME_MAX_PRICE_LEVELS
    ensures PriceToIndex(price) == PriceToIndex(other) <==> (price - other) % ME_MAX_PRICE_LEVELS == 0
  {
  }

  /** The prices at which orders rest on a side, one level each. */
  ghost function Prices<K>(s: seq<Order<K>>): set<int> {
    set i | 0 <= i < |s| :: s[i].price
  }

  /** Orders in the price slot of `price` have that price. */
  ghost predicate PriceFree<K>(s: seq<Order<K>>, price: int) {
    forall i :: 0 <= i < |s| && PriceToIndex(s[i].price) == PriceToIndex(price) ==> s[i].price == price
  }

  /** No order of the side is in the price slot of `price`. */
  ghost predicate SlotEmpty<K>(s: seq<Order<K>>, price: int) {
    forall i :: 0 <= i < |s| ==> PriceToIndex(s[i].price) != PriceToIndex(price)
  }

  /** The level found at the slot of `price` is the right one: live orders of this side in that slot have
      this price, and there are none of the opposite side. */
  ghost predicate SlotFits<K>(own: seq<Order<K>>, opp: seq<Order<K>>, price: int) {
    PriceFree(own, price) && SlotEmpty(opp, price)
  }

  /** No order of the side has this name. */
  ghost predicate Unnamed<K>(s: seq<Order<K>>, key: K) {
    forall i :: 0 <= i < |s| ==> s[i].key != key
  }

  /** Another order at `price` finds a block in a pool of `orders` blocks and, unless its level is there
      already, one in a pool of `levels` blocks for its level. A pool keeps one block back. */
  ghost predicate HasRoom<K>(own: seq<Order<K>>, opp: seq<Order<K>>, price: int, levels: nat, orders: nat) {
    && |own| + |opp| < orders - 1
    && (price in Prices(own) || |Prices(own)| + |Prices(opp)| < levels - 1)
  }

  lemma {:induction false} PricesSize<K>(s: seq<Order<K>>)
    ensures |Prices(s)| <= |s|
    decreases |s|
  {
    if s != [] {
      var n := |s| - 1;
      PricesSize(s[..n]);
      assert Prices(s) == Prices(s[..n]) + {s[n].price};
    }
  }

  /** With as many level blocks as order blocks there is always a level. */
  lemma RoomInEqualPools<K>(own: seq<Order<K>>, opp: seq<Order<K>>, price: int, blocks: nat)
    requires |own| + |opp| < blocks - 1
    ensures HasRoom(own, opp, price, blocks, blocks)
  {
    PricesSize(own);
    PricesSize(opp);
  }
}
