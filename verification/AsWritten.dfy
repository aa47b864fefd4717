/** The pointer operations of the order books as they stand, and exactly when they keep the rings. */
module AsWritten {
  import opened Common
  import opened Ladder
  import opened PriceSlots
  import opened Rings
  import opened BookHeap
  import opened HeapOps

  /** me_order_book.cpp:121-123: for BUY only the new price itself is tested. */
  predicate AddAfter(side: Side, price: int, target: int) {
    (side == SELL && price > target) || (side == BUY && price != 0)
  }

  /** Where the scan stops: the first level not to go behind, or the end. */
  function StopAt(levels: seq<Node<LevelData>>, ring: seq<nat>, side: Side, price: int): (k: nat)
    requires InStore(levels, ring)
    ensures k <= |ring|
    ensures forall i :: 0 <= i < k ==> AddAfter(side, price, levels[ring[i]].data.price)
    ensures k < |ring| ==> !AddAfter(side, price, levels[ring[k]].data.price)
    decreases |ring|
  {
    if ring == [] || !AddAfter(side, price, levels[ring[0]].data.price) then 0
    else
      assert forall i :: 0 <= i < |ring[1..]| ==> ring[1..][i] == ring[i + 1];
      1 + StopAt(levels, ring[1..], side, price)
  }

  /** The loop that finds it. */
  method ScanLevels(levels: seq<Node<LevelData>>, best: nat, side: Side, price: int, ghost ring: seq<nat>)
    returns (target: nat, addAfter: bool)
    requires Ring(levels, ring) && ring != [] && ring[0] == best
    ensures var k := StopAt(levels, ring, side, price);
            if addAfter then k == |ring| && target == best else k < |ring| && target == ring[k]
  {
    ghost var k := 0;
    target := best;
    addAfter := AddAfter(side, price, levels[target].data.price);
    if addAfter {
      assert LinksAt(levels, ring, 0);
      target := levels[target].next;
      k := 1;
      addAfter := AddAfter(side, price, levels[target].data.price);
      while addAfter && target != best
        invariant 1 <= k <= |ring| && target == (if k == |ring| then best else ring[k])
        invariant forall i :: 0 <= i < k ==> AddAfter(side, price, levels[ring[i]].data.price)
        invariant !addAfter ==> k < |ring| && !AddAfter(side, price, levels[ring[k]].data.price)
        decreases |ring| - k, addAfter
      {
        addAfter := AddAfter(side, price, levels[target].data.price);
        if addAfter {
          assert LinksAt(levels, ring, k);
          target := levels[target].next;
          k := k + 1;
        }
      }
    }
    if k < |ring| {
      assert k > 0 ==> ring[0] != ring[k];
    }
  }

  /** me_order_book.cpp:151-153: in front of `target`, with `prev` taken from the wrong neighbour and
      the `prev` of `target` left as it was. */
  function SpliceBefore(levels: seq<Node<LevelData>>, l: nat, target: nat, best: nat,
          isBest: bool): seq<Node<LevelData>>
    requires l < |levels| && target < |levels| && target != l && 0 <= levels[target].prev < |levels|
  {
    var s1 := levels[l := levels[l].(prev := levels[target].next, next := target)];
    var s2 := s1[s1[target].prev := s1[s1[target].prev].(next := l)];
    if isBest && s2[target].next == best then s2[target := s2[target].(next := l)] else s2
  }

  /** Level `l` is filled, not linked yet, and on its way into the sorted ring of its side. */
  ghost predicate Unlinked(levels: seq<Node<LevelData>>, ring: seq<nat>, l: nat) {
    && l < |levels| && l !in ring && levels[l] == Node(levels[l].data, NULL, NULL)
    && IsTradeSide(levels[l].data.side) && LadderOk(levels, ring, levels[l].data.side)
  }

  /** The stores after linking it in. */
  function Insert(levels: seq<Node<LevelData>>, ring: seq<nat>, l: nat): seq<Node<LevelData>>
    requires Unlinked(levels, ring, l)
  {
    var side, price := levels[l].data.side, levels[l].data.price;
    if ring == [] then Self(levels, l)
    else
      var k := StopAt(levels, ring, side, price);
      if k == |ring| then Splice(levels, l, ring[|ring| - 1], ring[0])
      else
        assert LinksAt(levels, ring, k);
        SpliceBefore(levels, l, ring[k], ring[0], Better(side, price, levels[ring[0]].data.price))
  }

  /** The level the side starts at afterwards. */
  function First(levels: seq<Node<LevelData>>, ring: seq<nat>, l: nat): nat
    requires Unlinked(levels, ring, l)
  {
    if ring == [] then l
    else if StopAt(levels, ring, levels[l].data.side, levels[l].data.price) < |ring|
            && Better(levels[l].data.side, levels[l].data.price, levels[ring[0]].data.price) then l
    else ring[0]
  }

  /** `r` starts there, sorts the old levels and the new one, and is linked as a ring. */
  ghost predicate Sorts(levels: seq<Node<LevelData>>, ring: seq<nat>, l: nat, r: seq<nat>)
    requires Unlinked(levels, ring, l)
  {
    && LadderOk(Insert(levels, ring, l), r, levels[l].data.side)
    && |r| == |ring| + 1 && l in r && r[0] == First(levels, ring, l)
  }

  /** The cases in which the code as it stands works: the first level of a side, and a level priced
      worse than all others, except a BUY at price zero. */
  predicate Works(levels: seq<Node<LevelData>>, ring: seq<nat>, l: nat)
    requires Unlinked(levels, ring, l)
  {
    var side, price := levels[l].data.side, levels[l].data.price;
    ring == [] || (Better(side, levels[ring[|ring| - 1]].data.price, price) && !(side == BUY && price == 0))
  }

  lemma TailWorks(levels: seq<Node<LevelData>>, ring: seq<nat>, l: nat)
    requires Unlinked(levels, ring, l) && Works(levels, ring, l)
    ensures Sorts(levels, ring, l, Inserted(ring, |ring|, l))
  {
    var side, price, n := levels[l].data.side, levels[l].data.price, |ring|;
    assert levels[l := Node(levels[l].data, NULL, NULL)] == levels;
    assert forall i :: 0 <= i < n ==> Better(side, levels[ring[i]].data.price, price);
    assert StopAt(levels, ring, side, price) == n;
    LevelLadder(levels, ring, side, n, l, levels[l].data);
    InsertedAt(ring, n, l);
    assert Insert(levels, ring, l) == LeveledLevels(levels, ring, n, l, levels[l].data);
    assert Inserted(ring, n, l)[n] == l;
  }

  /** In a ring the next level points back. */
  lemma PointsBack(levels: seq<Node<LevelData>>, r: seq<nat>, l: nat)
    requires Ring(levels, r) && l in r
    ensures 0 <= levels[l].next < |levels| && levels[levels[l].next].prev == l
  {
    var j :| 0 <= j < |r| && r[j] == l;
    assert LinksAt(levels, r, j) && LinksAt(levels, r, if j + 1 == |r| then 0 else j + 1);
  }

  /** Put in front of a level: that level does not point back. */
  lemma BeforeMislinks(levels: seq<Node<LevelData>>, ring: seq<nat>, l: nat)
    requires Unlinked(levels, ring, l) && ring != []
    requires StopAt(levels, ring, levels[l].data.side, levels[l].data.price) < |ring|
    ensures var levels' := Insert(levels, ring, l);
            |levels'| == |levels| && 0 <= levels'[l].next < |levels'| && levels'[levels'[l].next].prev != l
  {
    var k := StopAt(levels, ring, levels[l].data.side, levels[l].data.price);
    assert LinksAt(levels, ring, k) && Before(ring, k) in ring && ring[k] in ring;
  }

  lemma BackToFirst(r: seq<nat>, j: nat)
    requires Distinct(r) && j < |r| && After(r, j) == r[0]
    ensures j == |r| - 1
  {
  }

  /** Put at the end: where the level's links lead. */
  lemma TailLinks(levels: seq<Node<LevelData>>, ring: seq<nat>, l: nat)
    requires Unlinked(levels, ring, l) && ring != []
    requires StopAt(levels, ring, levels[l].data.side, levels[l].data.price) == |ring|
    ensures var levels', last := Insert(levels, ring, l), ring[|ring| - 1];
            && |levels'| == |levels| && last < |levels|
            && levels'[l].next == ring[0] && levels'[l].prev == last
            && levels'[l].data == levels[l].data && levels'[last].data == levels[last].data
  {
    assert ring[|ring| - 1] in ring && ring[0] in ring;
    SpliceFrame(levels, l, ring[|ring| - 1], ring[0]);
  }

  lemma LastIsWorse(levels: seq<Node<LevelData>>, r: seq<nat>, side: Side)
    requires LadderOk(levels, r, side) && |r| >= 2
    ensures Ring(levels, r) && r[|r| - 2] < |levels| && r[|r| - 1] < |levels|
    ensures Better(side, levels[r[|r| - 2]].data.price, levels[r[|r| - 1]].data.price)
  {
  }

  /** Put at the end: if that sorts the ring, the level is priced worse than the last one. */
  lemma TailIsWorst(levels: seq<Node<LevelData>>, ring: seq<nat>, l: nat, r: seq<nat>)
    requires Unlinked(levels, ring, l) && ring != [] && Sorts(levels, ring, l, r)
    requires StopAt(levels, ring, levels[l].data.side, levels[l].data.price) == |ring|
    ensures Better(levels[l].data.side, levels[ring[|ring| - 1]].data.price, levels[l].data.price)
  {
    hide Insert, LadderOk;
    var levels', n := Insert(levels, ring, l), |ring|;
    var j :| 0 <= j < |r| && r[j] == l;
    LastIsWorse(levels', r, levels[l].data.side);
    assert LinksAt(levels', r, j);
    TailLinks(levels, ring, l);
    BackToFirst(r, j);
    assert r[j - 1] == ring[n - 1];
  }

  /** As written, linking in a new level gives a sorted ring exactly in the cases above. */
  lemma InsertAsWritten(levels: seq<Node<LevelData>>, ring: seq<nat>, l: nat)
    requires Unlinked(levels, ring, l)
    ensures (exists r :: Sorts(levels, ring, l, r)) <==> Works(levels, ring, l)
  {
    var k := StopAt(levels, ring, levels[l].data.side, levels[l].data.price);
    if Works(levels, ring, l) {
      TailWorks(levels, ring, l);
    } else {
      forall r: seq<nat>
        ensures !Sorts(levels, ring, l, r)
      {
        if Sorts(levels, ring, l, r) {
          if k == |ring| {
            TailIsWorst(levels, ring, l, r);
          } else {
            PointsBack(Insert(levels, ring, l), r, l);
            BeforeMislinks(levels, ring, l);
          }
        }
      }
    }
  }

  // ----- CLEAR -----

  /** market_order_book.cpp:53-76 leaves the level index as it was. */
  function ClearHeap<K>(h: Heap<K>): Heap<K> {
    h.(index := map[])
  }

  /** After a CLEAR as written the index is right exactly when there was nothing to clear. */
  lemma ClearAsWritten<K>(h: Heap<K>, g: Shape)
    requires WellFormed(h, g)
    ensures WellFormed(ClearHeap(h), Shape([], [], map[], map[])) <==> g.bids == [] && g.asks == []
  {
    hide QueueOk, Ring, LadderOk, HomeOk, IndexOk;
    Parts(h, g);
    if g.bids != [] {
      assert h.at[PriceToIndex(h.levels[g.bids[0]].data.price)] == g.bids[0];
    }
    if g.asks != [] {
      assert h.at[PriceToIndex(h.levels[g.asks[0]].data.price)] == g.asks[0];
    }
  }
}
