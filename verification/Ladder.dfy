/** One side of an order book as a single list of orders in the order in which they trade:
    best price first and, within a price, first arrived first. */
module Ladder {
  import opened Common

  /** Price `p` is strictly closer to the market than `q` on this side. */
  predicate Better(side: Side, p: int, q: int) {
    if side == BUY then p > q else p < q
  }

  /** `a` has both price and time priority over `b`. */
  predicate Ahead<K>(side: Side, a: Order<K>, b: Order<K>) {
    || Better(side, a.price, b.price)
    || (a.price == b.price && a.oid < b.oid && a.priority < b.priority)
  }

  ghost predicate Sorted<K>(side: Side, s: seq<Order<K>>) {
    forall i, j :: 0 <= i < j < |s| ==> Ahead(side, s[i], s[j])
  }

  /** Every order is a live order of this side. */
  ghost predicate Live<K>(side: Side, s: seq<Order<K>>) {
    forall i :: 0 <= i < |s| ==> s[i].side == side && s[i].qty > 0
  }

  ghost predicate DistinctKeys<K>(s: seq<Order<K>>) {
    forall i, j :: 0 <= i < j < |s| ==> s[i].key != s[j].key
  }

  /** Queues `o` behind every order at its price or a better one. */
  function Enqueue<K>(s: seq<Order<K>>, o: Order<K>): (r: seq<Order<K>>)
    ensures |r| == |s| + 1
  {
    if s == [] || Better(o.side, o.price, s[0].price) then [o] + s
    else [s[0]] + Enqueue(s[1..], o)
  }

  /** Drops the first order named `key`. */
  function Drop<K(==)>(s: seq<Order<K>>, key: K): (r: seq<Order<K>>) {
    if s == [] then []
    else if s[0].key == key then s[1..]
    else [s[0]] + Drop(s[1..], key)
  }

  /** Sets the quantity of the first order named `key`. */
  function Resize<K(==)>(s: seq<Order<K>>, key: K, qty: nat): (r: seq<Order<K>>)
    ensures |r| == |s|
  {
    if s == [] then []
    else if s[0].key == key then [s[0].(qty := qty)] + s[1..]
    else [s[0]] + Resize(s[1..], key, qty)
  }

  /** The position of the first order named `key`, if there is one. */
  function Find<K(==)>(s: seq<Order<K>>, key: K): (r: Option<nat>)
    ensures r.Some? ==> r.value < |s| && s[r.value].key == key
    ensures r.None? ==> forall i :: 0 <= i < |s| ==> s[i].key != key
  {
    if s == [] then None
    else if s[0].key == key then Some(0)
    else match Find(s[1..], key)
         case Some(k) =>
           assert s[1..][k] == s[k + 1];
           Some(k + 1)
         case None => None
  }

  /** The priority a new order gets: one more than the last order queued at its price. */
  function NextPriority<K>(s: seq<Order<K>>, price: int): (r: nat)
    ensures r >= 1
  {
    if s == [] then 1
    else if s[|s| - 1].price == price then s[|s| - 1].priority + 1
    else NextPriority(s[..|s| - 1], price)
  }

  lemma SplitAt<T>(s: seq<T>, k: nat)
    requires k < |s|
    ensures s == s[..k] + [s[k]] + s[k + 1..]
  {
  }

  lemma Regroup<T>(a: seq<T>, b: seq<T>, c: seq<T>)
    ensures (a + b) + c == a + (b + c)
  {
  }

  // ----- where the three list operations act -----

  lemma {:induction false} EnqueueAt<K>(a: seq<Order<K>>, b: seq<Order<K>>, o: Order<K>)
    requires forall i :: 0 <= i < |a| ==> !Better(o.side, o.price, a[i].price)
    requires b == [] || Better(o.side, o.price, b[0].price)
    ensures Enqueue(a + b, o) == a + [o] + b
  {
    if a == [] {
      assert a + b == b;
    } else {
      assert (a + b)[1..] == a[1..] + b;
      EnqueueAt(a[1..], b, o);
      assert a + [o] + b == [a[0]] + (a[1..] + [o] + b);
    }
  }

  lemma {:induction false} DropAt<K>(a: seq<Order<K>>, x: Order<K>, b: seq<Order<K>>)
    requires forall i :: 0 <= i < |a| ==> a[i].key != x.key
    ensures Drop(a + [x] + b, x.key) == a + b
  {
    if a == [] {
      assert a + [x] + b == [x] + b;
    } else {
      assert (a + [x] + b)[1..] == a[1..] + [x] + b;
      DropAt(a[1..], x, b);
    }
  }

  lemma {:induction false} DropAbsent<K>(s: seq<Order<K>>, key: K)
    requires forall i :: 0 <= i < |s| ==> s[i].key != key
    ensures Drop(s, key) == s
  {
    if s != [] {
      DropAbsent(s[1..], key);
    }
  }

  lemma {:induction false} ResizeAt<K>(a: seq<Order<K>>, x: Order<K>, b: seq<Order<K>>, qty: nat)
    requires forall i :: 0 <= i < |a| ==> a[i].key != x.key
    ensures Resize(a + [x] + b, x.key, qty) == a + [x.(qty := qty)] + b
  {
    if a == [] {
      assert a + [x] + b == [x] + b;
      assert a + [x.(qty := qty)] + b == [x.(qty := qty)] + b;
    } else {
      assert (a + [x] + b)[1..] == a[1..] + [x] + b;
      ResizeAt(a[1..], x, b, qty);
    }
  }

  lemma {:induction false} ResizeAbsent<K>(s: seq<Order<K>>, key: K, qty: nat)
    requires forall i :: 0 <= i < |s| ==> s[i].key != key
    ensures Resize(s, key, qty) == s
  {
    if s != [] {
      ResizeAbsent(s[1..], key, qty);
    }
  }

  lemma {:induction false} FindAt<K>(s: seq<Order<K>>, k: nat)
    requires k < |s| && DistinctKeys(s)
    ensures Find(s, s[k].key) == Some(k)
  {
    if k > 0 {
      assert s[0].key != s[k].key;
      assert s[k] == s[1..][k - 1];
      FindAt(s[1..], k - 1);
    }
  }

  /** The place where `Enqueue` puts an order. */
  ghost function Slot<K>(s: seq<Order<K>>, o: Order<K>): (k: nat)
    ensures k <= |s|
  {
    if s == [] || Better(o.side, o.price, s[0].price) then 0 else Slot(s[1..], o) + 1
  }

  /** `r` is `s` with `o` put in at position `k`. */
  ghost predicate Spliced<K>(s: seq<Order<K>>, o: Order<K>, k: nat, r: seq<Order<K>>) {
    && k <= |s| && |r| == |s| + 1 && r[k] == o
    && (forall i :: 0 <= i < k ==> r[i] == s[i])
    && (forall i :: k < i < |r| ==> r[i] == s[i - 1])
  }

  lemma {:induction false} EnqueueSplices<K>(s: seq<Order<K>>, o: Order<K>)
    ensures Spliced(s, o, Slot(s, o), Enqueue(s, o))
    ensures forall i :: 0 <= i < Slot(s, o) ==> !Better(o.side, o.price, s[i].price)
    ensures Slot(s, o) < |s| ==> Better(o.side, o.price, s[Slot(s, o)].price)
  {
    if s != [] && !Better(o.side, o.price, s[0].price) {
      EnqueueSplices(s[1..], o);
      assert forall i :: 0 < i < |s| ==> s[i] == s[1..][i - 1];
    }
  }

  lemma SplicedIsConcat<K>(s: seq<Order<K>>, o: Order<K>, k: nat, r: seq<Order<K>>)
    requires Spliced(s, o, k, r)
    ensures r == s[..k] + [o] + s[k..]
  {
  }

  lemma BehindSlot<K>(s: seq<Order<K>>, o: Order<K>, k: nat)
    requires Sorted(o.side, s) && k < |s| && Better(o.side, o.price, s[k].price)
    ensures forall i :: k <= i < |s| ==> Better(o.side, o.price, s[i].price)
  {
    forall i | k < i < |s|
      ensures Better(o.side, o.price, s[i].price)
    {
      assert Ahead(o.side, s[k], s[i]);
    }
  }

  /** On a sorted side `Enqueue` puts the order behind everything priced at least as well and in
      front of everything priced worse. */
  lemma EnqueueSlot<K>(s: seq<Order<K>>, o: Order<K>)
    requires Sorted(o.side, s)
    ensures Enqueue(s, o) == s[..Slot(s, o)] + [o] + s[Slot(s, o)..]
    ensures Spliced(s, o, Slot(s, o), Enqueue(s, o))
    ensures forall i :: 0 <= i < Slot(s, o) ==> !Better(o.side, o.price, s[i].price)
    ensures forall i :: Slot(s, o) <= i < |s| ==> Better(o.side, o.price, s[i].price)
  {
    EnqueueSplices(s, o);
    SplicedIsConcat(s, o, Slot(s, o), Enqueue(s, o));
    if Slot(s, o) < |s| {
      BehindSlot(s, o, Slot(s, o));
    }
  }

  lemma {:induction false} NextPriorityTops<K>(s: seq<Order<K>>, side: Side, price: int)
    requires Sorted(side, s)
    ensures forall i :: 0 <= i < |s| && s[i].price == price ==> s[i].priority < NextPriority(s, price)
  {
    if s != [] {
      var n := |s| - 1;
      if s[n].price == price {
        assert forall i :: 0 <= i < n && s[i].price == price ==> Ahead(side, s[i], s[n]);
      } else {
        NextPriorityTops(s[..n], side, price);
        assert forall i :: 0 <= i < n ==> s[i] == s[..n][i];
      }
    }
  }

  lemma SplicedKeeps<K>(s: seq<Order<K>>, o: Order<K>, k: nat, r: seq<Order<K>>)
    requires Spliced(s, o, k, r)
    requires Sorted(o.side, s) && DistinctKeys(s)
    requires forall i :: 0 <= i < |s| ==> s[i].key != o.key
    requires forall i :: 0 <= i < k ==> Ahead(o.side, s[i], o)
    requires forall i :: k <= i < |s| ==> Ahead(o.side, o, s[i])
    ensures Sorted(o.side, r) && DistinctKeys(r)
  {
    forall i, j | 0 <= i < j < |r|
      ensures Ahead(o.side, r[i], r[j]) && r[i].key != r[j].key
    {
      var i' := if i < k then i else i - 1;
      var j' := if j < k then j else j - 1;
      if i != k && j != k {
        assert r[i] == s[i'] && r[j] == s[j'];
        assert Ahead(o.side, s[i'], s[j']);
      }
    }
  }

  /** An order that arrives last and takes the next priority keeps the side sorted, live and
      free of duplicate names. */
  lemma EnqueueKeeps<K>(s: seq<Order<K>>, o: Order<K>)
    requires IsTradeSide(o.side) && o.qty > 0
    requires Sorted(o.side, s) && Live(o.side, s) && DistinctKeys(s)
    requires forall i :: 0 <= i < |s| ==> s[i].oid < o.oid && s[i].key != o.key
    requires forall i :: 0 <= i < |s| && s[i].price == o.price ==> s[i].priority < o.priority
    ensures Sorted(o.side, Enqueue(s, o)) && Live(o.side, Enqueue(s, o)) && DistinctKeys(Enqueue(s, o))
  {
    EnqueueSlot(s, o);
    var k, r := Slot(s, o), Enqueue(s, o);
    SplicedKeeps(s, o, k, r);
    assert forall i :: 0 <= i < |r| && i != k ==> r[i] == s[if i < k then i else i - 1];
  }

  /** Removing one position keeps a side sorted, live and free of duplicate names. */
  lemma CutKeeps<K>(side: Side, s: seq<Order<K>>, k: nat)
    requires k < |s|
    requires Sorted(side, s) && Live(side, s) && DistinctKeys(s)
    ensures Sorted(side, s[..k] + s[k + 1..]) && Live(side, s[..k] + s[k + 1..])
    ensures DistinctKeys(s[..k] + s[k + 1..])
  {
    var r := s[..k] + s[k + 1..];
    forall i, j | 0 <= i < j < |r|
      ensures Ahead(side, r[i], r[j]) && r[i].key != r[j].key
    {
      var i' := if i < k then i else i + 1;
      var j' := if j < k then j else j + 1;
      assert r[i] == s[i'] && r[j] == s[j'];
      assert Ahead(side, s[i'], s[j']);
    }
  }

  lemma DropCuts<K>(s: seq<Order<K>>, k: nat)
    requires k < |s| && DistinctKeys(s)
    ensures Drop(s, s[k].key) == s[..k] + s[k + 1..]
  {
    hide Drop;
    SplitAt(s, k);
    DropAt(s[..k], s[k], s[k + 1..]);
  }

  lemma ResizeCuts<K>(s: seq<Order<K>>, k: nat, qty: nat)
    requires k < |s| && DistinctKeys(s)
    ensures Resize(s, s[k].key, qty) == s[k := s[k].(qty := qty)]
  {
    hide Resize;
    SplitAt(s, k);
    ResizeAt(s[..k], s[k], s[k + 1..], qty);
  }
}
