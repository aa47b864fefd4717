/** The best price and quantity of each side, and the client's cache of them. */
module TopOfBook {
  import opened Common
  import opened Ladder

  /** Quantities are added up in 32 bits. */
  const QTY_RANGE: nat := 0x1_0000_0000

  /** Total quantity of the orders at the front of the side that are priced at `price`. */
  function RunQty<K>(s: seq<Order<K>>, price: int): nat {
    if s == [] || s[0].price != price then 0 else s[0].qty + RunQty(s[1..], price)
  }

  function TopPrice<K>(s: seq<Order<K>>): int {
    if s == [] then PRICE_INVALID else s[0].price
  }

  function Wrap(x: nat): (r: nat)
    ensures r < QTY_RANGE
  {
    x % QTY_RANGE
  }

  function TopQty<K>(s: seq<Order<K>>): nat {
    if s == [] then QTY_INVALID else Wrap(RunQty(s, s[0].price))
  }

  // ----- what the top is -----

  /** Total quantity of all the orders of a side that are priced at `price`, wherever they stand. */
  function QtyAt<K>(s: seq<Order<K>>, price: int): nat {
    if s == [] then 0 else (if s[0].price == price then s[0].qty else 0) + QtyAt(s[1..], price)
  }

  /** Somebody offers `price`, nobody a better one, and `qty` is all that is offered at it, in 32 bits. An
      empty side has the marks for no price and no quantity. */
  ghost predicate IsTop<K>(side: Side, s: seq<Order<K>>, price: int, qty: nat) {
    if s == [] then price == PRICE_INVALID && qty == QTY_INVALID
    else
      && (exists i :: 0 <= i < |s| && s[i].price == price)
      && (forall i :: 0 <= i < |s| ==> if side == BUY then s[i].price <= price else price <= s[i].price)
      && qty == QtyAt(s, price) % 0x1_0000_0000
  }

  /** No order behind one that is priced worse is at the price. */
  lemma {:induction false} NothingAt<K>(s: seq<Order<K>>, price: int)
    requires forall i :: 0 <= i < |s| ==> s[i].price != price
    ensures QtyAt(s, price) == 0
  {
    if s != [] {
      NothingAt(s[1..], price);
    }
  }

  /** On a sorted side the orders at the best price are a run at the front. */
  lemma {:induction false} RunIsAll<K>(side: Side, s: seq<Order<K>>, price: int)
    requires Sorted(side, s) && forall i :: 0 <= i < |s| ==> !Better(side, s[i].price, price)
    ensures RunQty(s, price) == QtyAt(s, price)
  {
    if s != [] {
      if s[0].price == price {
        RunIsAll(side, s[1..], price);
      } else {
        assert forall i :: 0 < i < |s| ==> Ahead(side, s[0], s[i]);
        NothingAt(s, price);
      }
    }
  }

  /** What the walk along the first level finds is the top of the side, and nothing else is. */
  lemma TopIs<K>(side: Side, s: seq<Order<K>>, price: int, qty: nat)
    requires IsTradeSide(side) && Sorted(side, s)
    ensures IsTop(side, s, price, qty) <==> price == TopPrice(s) && qty == TopQty(s)
  {
    if s != [] {
      assert forall i :: 0 < i < |s| ==> Ahead(side, s[0], s[i]);
      RunIsAll(side, s, s[0].price);
    }
  }

  lemma RunStep<K>(s: seq<Order<K>>, i: nat, price: int, qty: nat)
    requires i < |s| && s[i].price == price
    ensures Wrap(Wrap(qty + s[i].qty)) == Wrap(qty + s[i].qty)
    ensures Wrap(Wrap(qty + s[i].qty) + RunQty(s[i + 1..], price)) == Wrap(qty + RunQty(s[i..], price))
  {
    assert s[i..][1..] == s[i + 1..];
  }
}
