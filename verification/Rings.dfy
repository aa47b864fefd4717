/** Circular doubly linked rings laid out in a store of slots: pointers are slot numbers, -1 is
    null, and a ring is described by the sequence of slots it visits from its first one on. */
module Rings {

  datatype Node<T> = Node(data: T, prev: int, next: int)

  const NULL: int := -1

  function After(r: seq<nat>, i: nat): nat
    requires i < |r|
  {
    if i + 1 == |r| then r[0] else r[i + 1]
  }

  function Before(r: seq<nat>, i: nat): nat
    requires i < |r|
  {
    if i == 0 then r[|r| - 1] else r[i - 1]
  }

  ghost predicate Distinct(r: seq<nat>) {
    forall i, j :: 0 <= i < j < |r| ==> r[i] != r[j]
  }

  ghost predicate InStore<T>(s: seq<Node<T>>, r: seq<nat>) {
    forall i :: 0 <= i < |r| ==> r[i] < |s|
  }

  /** The slots `r`, in this order, form a ring. */
  ghost predicate Ring<T>(s: seq<Node<T>>, r: seq<nat>) {
    && Distinct(r) && InStore(s, r)
    && (forall i :: 0 <= i < |r| ==> LinksAt(s, r, i))
  }

  ghost predicate LinksAt<T>(s: seq<Node<T>>, r: seq<nat>, i: nat)
    requires InStore(s, r) && i < |r|
  {
    s[r[i]].next == After(r, i) && s[r[i]].prev == Before(r, i)
  }

  /** Puts slot `n` between its neighbours `p` and `q`. */
  function Splice<T>(s: seq<Node<T>>, n: nat, p: nat, q: nat): (r: seq<Node<T>>)
    requires n < |s| && p < |s| && q < |s|
    ensures |r| == |s|
  {
    var s1 := s[n := s[n].(prev := p, next := q)];
    var s2 := s1[p := s1[p].(next := n)];
    s2[q := s2[q].(prev := n)]
  }

  /** Takes slot `x` out from between its neighbours. */
  function Unlink<T>(s: seq<Node<T>>, x: nat, p: nat, q: nat): (r: seq<Node<T>>)
    requires x < |s| && p < |s| && q < |s|
    ensures |r| == |s|
  {
    var s1 := s[p := s[p].(next := q)];
    var s2 := s1[q := s1[q].(prev := p)];
    s2[x := s2[x].(prev := NULL, next := NULL)]
  }

  function Self<T>(s: seq<Node<T>>, n: nat): seq<Node<T>>
    requires n < |s|
  {
    s[n := s[n].(prev := n, next := n)]
  }

  function Inserted(r: seq<nat>, k: nat, n: nat): seq<nat>
    requires k <= |r|
  {
    r[..k] + [n] + r[k..]
  }

  function Removed(r: seq<nat>, k: nat): seq<nat>
    requires k < |r|
  {
    r[..k] + r[k + 1..]
  }

  lemma InsertedAt(r: seq<nat>, k: nat, n: nat)
    requires k <= |r|
    ensures |Inserted(r, k, n)| == |r| + 1 && Inserted(r, k, n)[k] == n
    ensures forall i :: 0 <= i < k ==> Inserted(r, k, n)[i] == r[i]
    ensures forall i :: k < i <= |r| ==> Inserted(r, k, n)[i] == r[i - 1]
  {
  }

  /** The neighbours of position `k` in a non-empty ring, counting round. */
  function LeftOf(r: seq<nat>, k: nat): nat
    requires 0 < |r| && k <= |r|
  {
    if k == 0 then r[|r| - 1] else r[k - 1]
  }

  function RightOf(r: seq<nat>, k: nat): nat
    requires 0 < |r| && k <= |r|
  {
    if k == |r| then r[0] else r[k]
  }

  lemma InsertDistinct(r: seq<nat>, k: nat, n: nat)
    requires Distinct(r) && k <= |r| && n !in r
    ensures Distinct(Inserted(r, k, n))
  {
    InsertedAt(r, k, n);
    var r' := Inserted(r, k, n);
    forall i, j | 0 <= i < j < |r'|
      ensures r'[i] != r'[j]
    {
      var i', j' := if i < k then i else i - 1, if j < k then j else j - 1;
      assert i != k ==> r'[i] == r[i'];
      assert j != k ==> r'[j] == r[j'];
    }
  }

  lemma SameSlot(r: seq<nat>, i: nat, j: nat)
    requires Distinct(r) && i < |r| && j < |r|
    ensures r[i] == r[j] <==> i == j
  {
  }

  /** Who follows and who precedes old member `i` once `n` stands at position `k`. */
  lemma InsertedNeighbours(r: seq<nat>, k: nat, n: nat, i: nat)
    requires 0 < |r| && k <= |r| && i < |r|
    ensures var r', j := Inserted(r, k, n), if i < k then i else i + 1;
            && After(r', j) == (if (k > 0 && i == k - 1) || (k == 0 && i == |r| - 1) then n else After(r, i))
            && Before(r', j) == (if (k < |r| && i == k) || (k == |r| && i == 0) then n else Before(r, i))
  {
    InsertedAt(r, k, n);
  }

  lemma SpliceOld<T>(s: seq<Node<T>>, r: seq<nat>, k: nat, n: nat, i: nat)
    requires Ring(s, r) && 0 < |r| && k <= |r| && n < |s| && n !in r && i < |r|
    ensures var x := Splice(s, n, LeftOf(r, k), RightOf(r, k))[r[i]];
            && x.next == (if (k > 0 && i == k - 1) || (k == 0 && i == |r| - 1) then n else After(r, i))
            && x.prev == (if (k < |r| && i == k) || (k == |r| && i == 0) then n else Before(r, i))
  {
    assert LinksAt(s, r, i) && r[i] in r;
    SameSlot(r, i, if k == 0 then |r| - 1 else k - 1);
    SameSlot(r, i, if k == |r| then 0 else k);
  }

  lemma SpliceNew<T>(s: seq<Node<T>>, r: seq<nat>, k: nat, n: nat)
    requires InStore(s, r) && 0 < |r| && k <= |r| && n < |s| && n !in r
    ensures var x := Splice(s, n, LeftOf(r, k), RightOf(r, k))[n];
            x.next == After(Inserted(r, k, n), k) && x.prev == Before(Inserted(r, k, n), k)
  {
    InsertedAt(r, k, n);
    assert LeftOf(r, k) in r && RightOf(r, k) in r;
  }

  /** Inserting a slot at any position of a ring, the ends included, gives a ring. */
  lemma SpliceRing<T>(s: seq<Node<T>>, r: seq<nat>, k: nat, n: nat)
    requires Ring(s, r) && 0 < |r| && k <= |r| && n < |s| && n !in r
    ensures Ring(Splice(s, n, LeftOf(r, k), RightOf(r, k)), Inserted(r, k, n))
  {
    var r' := Inserted(r, k, n);
    var s' := Splice(s, n, LeftOf(r, k), RightOf(r, k));
    InsertedAt(r, k, n);
    InsertDistinct(r, k, n);
    assert InStore(s', r');
    forall j | 0 <= j < |r'|
      ensures LinksAt(s', r', j)
    {
      if j == k {
        SpliceNew(s, r, k, n);
      } else {
        var i := if j < k then j else j - 1;
        SpliceOld(s, r, k, n, i);
        InsertedNeighbours(r, k, n, i);
      }
    }
  }

  lemma RemovedAt(r: seq<nat>, k: nat)
    requires k < |r|
    ensures |Removed(r, k)| == |r| - 1
    ensures forall i :: 0 <= i < k ==> Removed(r, k)[i] == r[i]
    ensures forall i :: k <= i < |r| - 1 ==> Removed(r, k)[i] == r[i + 1]
  {
  }

  lemma RemoveDistinct(r: seq<nat>, k: nat)
    requires Distinct(r) && k < |r|
    ensures Distinct(Removed(r, k))
  {
    RemovedAt(r, k);
    var r' := Removed(r, k);
    forall i, j | 0 <= i < j < |r'|
      ensures r'[i] != r'[j]
    {
      assert r'[i] == r[if i < k then i else i + 1] && r'[j] == r[if j < k then j else j + 1];
    }
  }

  /** Taking any slot out of a ring of more than one gives a ring. */
  lemma UnlinkRing<T>(s: seq<Node<T>>, r: seq<nat>, k: nat)
    requires Ring(s, r) && 1 < |r| && k < |r|
    ensures Ring(Unlink(s, r[k], Before(r, k), After(r, k)), Removed(r, k))
  {
    var r' := Removed(r, k);
    var s' := Unlink(s, r[k], Before(r, k), After(r, k));
    RemovedAt(r, k);
    RemoveDistinct(r, k);
    assert InStore(s', r');
    forall i | 0 <= i < |r'|
      ensures LinksAt(s', r', i)
    {
      UnlinkLinks(s, r, k, if i < k then i else i + 1);
    }
  }

  lemma UnlinkLinks<T>(s: seq<Node<T>>, r: seq<nat>, k: nat, i: nat)
    requires Ring(s, r) && 1 < |r| && k < |r| && i < |r| && i != k
    ensures var x := Unlink(s, r[k], Before(r, k), After(r, k))[r[i]];
            && x.next == (if (k > 0 && i == k - 1) || (k == 0 && i == |r| - 1) then After(r, k) else After(r, i))
            && x.prev == (if i == (if k + 1 < |r| then k + 1 else 0) then Before(r, k) else Before(r, i))
  {
    assert LinksAt(s, r, i);
    SameSlot(r, i, k);
    SameSlot(r, i, if k == 0 then |r| - 1 else k - 1);
    SameSlot(r, i, if k + 1 == |r| then 0 else k + 1);
  }

  lemma SelfRing<T>(s: seq<Node<T>>, n: nat)
    requires n < |s|
    ensures Ring(Self(s, n), [n])
  {
  }

  /** A ring only depends on the slots it visits. */
  lemma RingFrame<T>(s: seq<Node<T>>, s': seq<Node<T>>, r: seq<nat>)
    requires Ring(s, r) && |s'| == |s|
    requires forall i :: 0 <= i < |r| ==> s'[r[i]].prev == s[r[i]].prev && s'[r[i]].next == s[r[i]].next
    ensures Ring(s', r)
  {
    assert InStore(s', r);
    forall i | 0 <= i < |r|
      ensures LinksAt(s', r, i)
    {
      assert LinksAt(s, r, i);
    }
  }

  /** A splice or an unlink changes links, never what the slots carry, and only in three slots. */
  lemma SpliceFrame<T>(s: seq<Node<T>>, n: nat, p: nat, q: nat)
    requires n < |s| && p < |s| && q < |s|
    ensures forall i :: 0 <= i < |s| ==> Splice(s, n, p, q)[i].data == s[i].data
    ensures forall i :: 0 <= i < |s| && i != n && i != p && i != q ==> Splice(s, n, p, q)[i] == s[i]
  {
  }

  lemma UnlinkFrame<T>(s: seq<Node<T>>, x: nat, p: nat, q: nat)
    requires x < |s| && p < |s| && q < |s|
    ensures forall i :: 0 <= i < |s| ==> Unlink(s, x, p, q)[i].data == s[i].data
    ensures forall i :: 0 <= i < |s| && i != x && i != p && i != q ==> Unlink(s, x, p, q)[i] == s[i]
  {
  }
}
