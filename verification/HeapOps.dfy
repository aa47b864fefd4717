/** The pointer operations of an order book, each shown to keep the layout well formed and to change
    the book it stands for in the intended way. */
module HeapOps {
  import opened Common
  import opened Ladder
  import opened PriceSlots
  import opened Rings
  import opened BookHeap

  // ----- frames -----

  lemma QueueFrame<K>(level: LevelData, orders: seq<Node<Order<K>>>, orders': seq<Node<Order<K>>>, q: seq<nat>)
    requires QueueOk(level, orders, q) && |orders'| == |orders|
    requires forall i :: 0 <= i < |q| ==> orders'[q[i]] == orders[q[i]]
    ensures QueueOk(level, orders', q)
  {
    RingFrame(orders, orders', q);
  }

  /** Changing links or levels outside a ladder does not disturb it. */
  lemma LadderFrame(levels: seq<Node<LevelData>>, levels': seq<Node<LevelData>>, ring: seq<nat>, side: Side)
    requires LadderOk(levels, ring, side) && |levels'| == |levels|
    requires forall i :: 0 <= i < |ring| ==>
               levels'[ring[i]].prev == levels[ring[i]].prev && levels'[ring[i]].next == levels[ring[i]].next
    requires forall i :: 0 <= i < |ring| ==> SameLevel(levels'[ring[i]].data, levels[ring[i]].data)
    ensures LadderOk(levels', ring, side)
  {
    RingFrame(levels, levels', ring);
  }

  predicate SameLevel(a: LevelData, b: LevelData) {
    a.side == b.side && a.price == b.price
  }

  lemma LaddersFrame<K>(h: Heap<K>, g: Shape, levels': seq<Node<LevelData>>)
    requires LadderOk(h.levels, g.bids, BUY) && LadderOk(h.levels, g.asks, SELL) && |levels'| == |h.levels|
    requires forall i :: 0 <= i < |levels'| ==> SameLinks(levels'[i], h.levels[i])
    ensures LadderOk(levels', g.bids, BUY) && LadderOk(levels', g.asks, SELL)
  {
    LadderFrame(h.levels, levels', g.bids, BUY);
    LadderFrame(h.levels, levels', g.asks, SELL);
  }

  predicate SameLinks(a: Node<LevelData>, b: Node<LevelData>) {
    a.prev == b.prev && a.next == b.next && SameLevel(a.data, b.data)
  }

  /** The level index depends only on where levels are and on their prices. */
  lemma AtFrame<K>(h: Heap<K>, g: Shape, h': Heap<K>, g': Shape)
    requires AtOk(h, g) && h'.at == h.at && |h'.levels| == |h.levels|
    requires g'.queue.Keys == g.queue.Keys
    requires forall l :: l in g.queue ==> h'.levels[l].data.price == h.levels[l].data.price
    ensures AtOk(h', g')
  {
    assert forall l :: l in g'.queue <==> l in g.queue;
  }

  /** Forgetting one order, whatever happens to links. */
  lemma IndexDrop<K>(h: Heap<K>, g: Shape, h': Heap<K>, g': Shape, s: nat)
    requires IndexOk(h, g) && s in g.home && |h'.orders| == |h.orders|
    requires forall i :: 0 <= i < |h.orders| ==> h'.orders[i].data == h.orders[i].data
    requires h'.index == h.index - {h.orders[s].data.key} && g'.home == g.home - {s}
    ensures IndexOk(h', g')
  {
  }

  lemma IndexAdd<K>(h: Heap<K>, g: Shape, h': Heap<K>, g': Shape, n: nat, o: Order<K>, l: nat)
    requires IndexOk(h, g) && n !in g.home && n < |h.orders| && |h'.orders| == |h.orders| && o.key !in h.index
    requires h'.orders[n].data == o && forall i :: 0 <= i < |h.orders| && i != n ==>
        h'.orders[i].data == h.orders[i].data
    requires h'.index == h.index[o.key := n] && g'.home == g.home[n := l]
    ensures IndexOk(h', g')
  {
  }

  /** Values of slots that an operation does not write. */
  lemma ValuesFrame<K>(orders: seq<Node<Order<K>>>, orders': seq<Node<Order<K>>>, slots: seq<nat>)
    requires Within(orders, slots) && |orders'| == |orders|
    requires forall i :: 0 <= i < |slots| ==> orders'[slots[i]].data == orders[slots[i]].data
    ensures Values(orders', slots) == Values(orders, slots)
  {
  }

  lemma ValuesConcat<K>(orders: seq<Node<Order<K>>>, a: seq<nat>, b: seq<nat>)
    requires Within(orders, a) && Within(orders, b)
    ensures Within(orders, a + b) && Values(orders, a + b) == Values(orders, a) + Values(orders, b)
  {
  }

  // ----- a new order at an existing level -----

  /** The order store once order `o` in slot `n` closes the queue `q`. */
  function AppendedOrders<K>(orders: seq<Node<Order<K>>>, q: seq<nat>, n: nat, o: Order<K>): seq<Node<Order<K>>>
    requires |q| > 0 && n < |orders| && q[0] < |orders| && q[|q| - 1] < |orders|
  {
    Splice(orders[n := Node(o, NULL, NULL)], n, q[|q| - 1], q[0])
  }

  lemma AppendQueue<K>(level: LevelData, orders: seq<Node<Order<K>>>, q: seq<nat>, n: nat, o: Order<K>)
    requires QueueOk(level, orders, q) && n < |orders| && n !in q && BelongsTo(level, o)
    requires orders[q[|q| - 1]].data.priority < o.priority
    ensures QueueOk(level, AppendedOrders(orders, q, n, o), q + [n])
  {
    var filled := orders[n := Node(o, NULL, NULL)];
    var orders' := AppendedOrders(orders, q, n, o);
    var q' := q + [n];
    RingFrame(orders, filled, q);
    SpliceRing(filled, q, |q|, n);
    assert Inserted(q, |q|, n) == q' by { assert q[|q|..] == []; }
    SpliceFrame(filled, n, q[|q| - 1], q[0]);
    assert forall i :: 0 <= i < |q| ==> q'[i] == q[i] && q[i] in q;
    forall i, j | 0 <= i < j < |q'|
      ensures orders'[q'[i]].data.priority < orders'[q'[j]].data.priority
    {
      if j == |q| && i < |q| - 1 {
        assert orders[q[i]].data.priority < orders[q[|q| - 1]].data.priority;
      }
    }
  }

  ghost predicate CanAppend<K>(h: Heap<K>, g: Shape, l: nat, n: nat, o: Order<K>) {
    && WellFormed(h, g) && l in g.queue && l < |h.levels| && n < |h.orders| && n !in g.home
    && o.key !in h.index && BelongsTo(h.levels[l].data, o)
    && h.orders[g.queue[l][|g.queue[l]| - 1]].data.priority < o.priority
  }

  function AppendHeap<K>(h: Heap<K>, g: Shape, l: nat, n: nat, o: Order<K>): Heap<K>
    requires CanAppend(h, g, l, n, o)
  {
    var q := g.queue[l];
    assert QueueOk(h.levels[l].data, h.orders, q);
    h.(orders := AppendedOrders(h.orders, q, n, o), index := h.index[o.key := n])
  }

  function AppendShape(g: Shape, l: nat, n: nat): Shape
    requires l in g.queue
  {
    g.(queue := g.queue[l := g.queue[l] + [n]], home := g.home[n := l])
  }

  lemma NotQueued(g: Shape, n: nat)
    requires HomeOk(g) && n !in g.home
    ensures forall l :: l in g.queue ==> n !in g.queue[l]
  {
    forall l | l in g.queue
      ensures n !in g.queue[l]
    {
      assert forall i :: 0 <= i < |g.queue[l]| ==> g.queue[l][i] in g.home;
    }
  }

  lemma AppendQueues<K>(h: Heap<K>, g: Shape, l: nat, n: nat, o: Order<K>)
    requires CanAppend(h, g, l, n, o)
    ensures QueuesOk(AppendHeap(h, g, l, n, o), AppendShape(g, l, n))
  {
    hide WellFormed, LadderOk, QueueOk, AtOk, HomeOk, IndexOk;
    var h', g' := AppendHeap(h, g, l, n, o), AppendShape(g, l, n);
    Parts(h, g);
    QueueParts(h, g, l);
    NotQueued(g, n);
    AppendQueue(h.levels[l].data, h.orders, g.queue[l], n, o);
    forall m | m in g'.queue
      ensures m < |h'.levels| && QueueOk(h'.levels[m].data, h'.orders, g'.queue[m])
    {
      if m != l {
        AppendOtherQueue(h, g, l, n, o, m);
      }
    }
  }

  lemma AppendOtherQueue<K>(h: Heap<K>, g: Shape, l: nat, n: nat, o: Order<K>, m: nat)
    requires CanAppend(h, g, l, n, o) && m in g.queue && m != l && m < |h.levels|
    ensures QueueOk(h.levels[m].data, AppendHeap(h, g, l, n, o).orders, g.queue[m])
  {
    hide WellFormed, LadderOk, QueuesOk, QueueOk, AtOk, HomeOk, IndexOk;
    var q := g.queue[l];
    Parts(h, g);
    QueueParts(h, g, l);
    QueueParts(h, g, m);
    UntouchedQueue(g, l, m, n, q[|q| - 1], q[0]);
    NotQueued(g, n);
    AppendData(h.orders, q, n, o);
    QueueFrame(h.levels[m].data, h.orders, AppendedOrders(h.orders, q, n, o), g.queue[m]);
  }

  /** Slots of one queue, and a slot of none, are not in another queue. */
  lemma UntouchedQueue(g: Shape, l: nat, m: nat, n: nat, a: nat, b: nat)
    requires HomeOk(g) && l in g.queue && m in g.queue && l != m
    requires a in g.queue[l] && b in g.queue[l] && (n !in g.home || n in g.queue[l])
    ensures forall i :: 0 <= i < |g.queue[m]| ==> g.queue[m][i] != n && g.queue[m][i] != a && g.queue[m][i] != b
  {
    assert g.home[a] == l && g.home[b] == l;
    forall i | 0 <= i < |g.queue[m]|
      ensures g.queue[m][i] != n && g.queue[m][i] != a && g.queue[m][i] != b
    {
      assert g.home[g.queue[m][i]] == m;
    }
  }

  lemma AppendHome(g: Shape, l: nat, n: nat)
    requires HomeOk(g) && l in g.queue && n !in g.home
    ensures HomeOk(AppendShape(g, l, n))
  {
    var g' := AppendShape(g, l, n);
    forall m | m in g'.queue
      ensures forall i :: 0 <= i < |g'.queue[m]| ==> g'.queue[m][i] in g'.home && g'.home[g'.queue[m][i]] == m
    {
      assert forall i :: 0 <= i < |g.queue[m]| ==> g.queue[m][i] in g.home && g.home[g.queue[m][i]] == m;
    }
    forall s | s in g'.home
      ensures g'.home[s] in g'.queue && s in g'.queue[g'.home[s]]
    {
      if s == n {
        assert g'.queue[l][|g.queue[l]|] == n;
      } else {
        assert s in g.queue[g.home[s]];
      }
    }
  }

  lemma AppendData<K>(orders: seq<Node<Order<K>>>, q: seq<nat>, n: nat, o: Order<K>)
    requires |q| > 0 && n < |orders| && q[0] < |orders| && q[|q| - 1] < |orders| && n !in q
    ensures |AppendedOrders(orders, q, n, o)| == |orders| && AppendedOrders(orders, q, n, o)[n].data == o
    ensures forall i :: 0 <= i < |orders| && i != n ==> AppendedOrders(orders, q, n, o)[i].data == orders[i].data
    ensures forall i :: 0 <= i < |orders| && i != n && i != q[0] && i != q[|q| - 1] ==>
              AppendedOrders(orders, q, n, o)[i] == orders[i]
  {
    SpliceFrame(orders[n := Node(o, NULL, NULL)], n, q[|q| - 1], q[0]);
  }

  lemma Assemble<K>(h: Heap<K>, g: Shape)
    requires LadderOk(h.levels, g.bids, BUY) && LadderOk(h.levels, g.asks, SELL)
    requires LevelsOk(g) && QueuesOk(h, g) && AtOk(h, g) && HomeOk(g) && IndexOk(h, g)
    ensures WellFormed(h, g)
  {
  }

  /** The layout stays well formed. */
  lemma AppendKeeps<K>(h: Heap<K>, g: Shape, l: nat, n: nat, o: Order<K>)
    requires CanAppend(h, g, l, n, o)
    ensures WellFormed(AppendHeap(h, g, l, n, o), AppendShape(g, l, n))
  {
    hide WellFormed, LadderOk, QueuesOk, QueueOk, AtOk, HomeOk, IndexOk;
    var h', g' := AppendHeap(h, g, l, n, o), AppendShape(g, l, n);
    Parts(h, g);
    QueueParts(h, g, l);
    AppendQueues(h, g, l, n, o);
    AppendHome(g, l, n);
    NotQueued(g, n);
    AppendData(h.orders, g.queue[l], n, o);
    IndexAdd(h, g, h', g', n, o, l);
    AtFrame(h, g, h', g');
    Assemble(h', g');
  }

  // ----- a new order at a new level -----

  /** The level store once level `data` in slot `l` stands at position `k` of the ring. */
  function LeveledLevels(levels: seq<Node<LevelData>>, ring: seq<nat>, k: nat, l: nat,
          data: LevelData): seq<Node<LevelData>>
    requires l < |levels| && k <= |ring| && forall i :: 0 <= i < |ring| ==> ring[i] < |levels|
  {
    var filled := levels[l := Node(data, NULL, NULL)];
    if ring == [] then Self(filled, l) else Splice(filled, l, LeftOf(ring, k), RightOf(ring, k))
  }

  /** Position `k` is where price `price` belongs. */
  ghost predicate PriceFits(levels: seq<Node<LevelData>>, ring: seq<nat>, side: Side, price: int, k: nat) {
    && k <= |ring| && InStore(levels, ring)
    && (forall i :: 0 <= i < k ==> Better(side, levels[ring[i]].data.price, price))
    && (forall i :: k <= i < |ring| ==> Better(side, price, levels[ring[i]].data.price))
  }

  lemma LeveledData(levels: seq<Node<LevelData>>, ring: seq<nat>, k: nat, l: nat, data: LevelData)
    requires l < |levels| && k <= |ring| && InStore(levels, ring)
    ensures |LeveledLevels(levels, ring, k, l, data)| == |levels|
    ensures LeveledLevels(levels, ring, k, l, data)[l].data == data
    ensures forall i :: 0 <= i < |levels| && i != l ==>
        LeveledLevels(levels, ring, k, l, data)[i].data == levels[i].data
    ensures forall i :: 0 <= i < |levels| && i != l && i !in ring ==>
        LeveledLevels(levels, ring, k, l, data)[i] == levels[i]
  {
    var filled := levels[l := Node(data, NULL, NULL)];
    if ring != [] {
      SpliceFrame(filled, l, LeftOf(ring, k), RightOf(ring, k));
    }
  }

  /** `addOrdersAtPrice`: the ring of levels stays a ring and stays strictly sorted. */
  lemma LevelLadder(levels: seq<Node<LevelData>>, ring: seq<nat>, side: Side, k: nat, l: nat, data: LevelData)
    requires LadderOk(levels, ring, side) && l < |levels| && l !in ring
    requires PriceFits(levels, ring, side, data.price, k) && data.side == side
    ensures LadderOk(LeveledLevels(levels, ring, k, l, data), Inserted(ring, k, l), side)
  {
    var filled := levels[l := Node(data, NULL, NULL)];
    var levels' := LeveledLevels(levels, ring, k, l, data);
    var r' := Inserted(ring, k, l);
    LeveledData(levels, ring, k, l, data);
    InsertedAt(ring, k, l);
    RingFrame(levels, filled, ring);
    if ring == [] {
      assert r' == [l];
      SelfRing(filled, l);
    } else {
      SpliceRing(filled, ring, k, l);
    }
    forall i | 0 <= i < |r'|
      ensures levels'[r'[i]].data == if i == k then data else levels[ring[if i < k then i else i - 1]].data
    {
      if i != k {
        assert r'[i] == ring[if i < k then i else i - 1] && r'[i] in ring;
      }
    }
  }

  ghost predicate CanLevel<K>(h: Heap<K>, g: Shape, k: nat, l: nat, n: nat, o: Order<K>) {
    && WellFormed(h, g) && IsTradeSide(o.side)
    && l < |h.levels| && l !in g.queue && n < |h.orders| && n !in g.home
    && o.key !in h.index && h.at[PriceToIndex(o.price)] == NULL
    && PriceFits(h.levels, g.On(o.side), o.side, o.price, k)
  }

  function LevelHeap<K>(h: Heap<K>, g: Shape, k: nat, l: nat, n: nat, o: Order<K>): Heap<K>
    requires CanLevel(h, g, k, l, n, o)
  {
    Heap(LeveledLevels(h.levels, g.On(o.side), k, l, LevelData(o.side, o.price, n)),
         Self(h.orders[n := Node(o, NULL, NULL)], n),
         h.at[PriceToIndex(o.price) := l],
         h.index[o.key := n])
  }

  function LevelShape(g: Shape, side: Side, k: nat, l: nat, n: nat): Shape
    requires k <= |g.On(side)|
  {
    g.With(side, Inserted(g.On(side), k, l)).(queue := g.queue[l := [n]], home := g.home[n := l])
  }

  lemma SidesApart(levels: seq<Node<LevelData>>, own: seq<nat>, other: seq<nat>, side: Side)
    requires IsTradeSide(side) && LadderOk(levels, own, side) && LadderOk(levels, other, Opposite(side))
    ensures forall i :: 0 <= i < |other| ==> other[i] !in own
  {
    forall i | 0 <= i < |other|
      ensures other[i] !in own
    {
      assert levels[other[i]].data.side == Opposite(side);
    }
  }

  lemma LevelLadders<K>(h: Heap<K>, g: Shape, k: nat, l: nat, n: nat, o: Order<K>)
    requires CanLevel(h, g, k, l, n, o)
    ensures var h', g' := LevelHeap(h, g, k, l, n, o), LevelShape(g, o.side, k, l, n);
            LadderOk(h'.levels, g'.bids, BUY) && LadderOk(h'.levels, g'.asks, SELL)
  {
    hide WellFormed, LadderOk, QueuesOk, QueueOk, AtOk, HomeOk, IndexOk;
    Parts(h, g);
    var own, other, data := g.On(o.side), g.On(Opposite(o.side)), LevelData(o.side, o.price, n);
    assert l !in own && forall i :: 0 <= i < |other| ==> other[i] != l;
    LevelLadder(h.levels, own, o.side, k, l, data);
    SidesApart(h.levels, own, other, o.side);
    OtherLadder(h.levels, own, other, Opposite(o.side), k, l, data);
  }

  lemma OtherLadder(levels: seq<Node<LevelData>>, own: seq<nat>, other: seq<nat>, side: Side, k: nat, l: nat,
          data: LevelData)
    requires LadderOk(levels, other, side) && l < |levels| && k <= |own| && InStore(levels, own)
    requires forall i :: 0 <= i < |other| ==> other[i] != l && other[i] !in own
    ensures LadderOk(LeveledLevels(levels, own, k, l, data), other, side)
  {
    LeveledData(levels, own, k, l, data);
    LadderFrame(levels, LeveledLevels(levels, own, k, l, data), other, side);
  }

  lemma InsertedMembers(r: seq<nat>, k: nat, n: nat)
    requires k <= |r|
    ensures forall x :: x in Inserted(r, k, n) <==> x in r || x == n
  {
    InsertedAt(r, k, n);
    var r' := Inserted(r, k, n);
    forall x | x in r
      ensures x in r'
    {
      var i :| 0 <= i < |r| && r[i] == x;
      assert r'[if i < k then i else i + 1] == x;
    }
  }

  lemma LevelLevels(g: Shape, side: Side, k: nat, l: nat, n: nat)
    requires LevelsOk(g) && IsTradeSide(side) && k <= |g.On(side)|
    ensures LevelsOk(LevelShape(g, side, k, l, n))
  {
    InsertedMembers(g.On(side), k, l);
  }

  lemma LevelQueues<K>(h: Heap<K>, g: Shape, h': Heap<K>, l: nat, n: nat, o: Order<K>)
    requires QueuesOk(h, g) && HomeOk(g) && l < |h.levels| && l !in g.queue && n < |h.orders| && n !in g.home
    requires |h'.levels| == |h.levels| && h'.levels[l].data == LevelData(o.side, o.price, n)
    requires forall i :: 0 <= i < |h.levels| && i != l ==> h'.levels[i].data == h.levels[i].data
    requires h'.orders == Self(h.orders[n := Node(o, NULL, NULL)], n)
    ensures QueuesOk(h', g.(queue := g.queue[l := [n]]))
  {
    var queue' := g.queue[l := [n]];
    SelfRing(h.orders[n := Node(o, NULL, NULL)], n);
    NotQueued(g, n);
    forall m | m in queue'
      ensures m < |h'.levels| && QueueOk(h'.levels[m].data, h'.orders, queue'[m])
    {
      if m != l {
        assert forall i :: 0 <= i < |g.queue[m]| ==> g.queue[m][i] in g.queue[m] && g.queue[m][i] != n;
        QueueFrame(h.levels[m].data, h.orders, h'.orders, g.queue[m]);
      }
    }
  }

  lemma LevelAt<K>(h: Heap<K>, g: Shape, h': Heap<K>, g': Shape, l: nat, price: int)
    requires AtOk(h, g) && h.at[PriceToIndex(price)] == NULL && l !in g.queue && l < |h.levels|
    requires |h'.levels| == |h.levels| && h'.levels[l].data.price == price
    requires forall i :: 0 <= i < |h.levels| && i != l ==> h'.levels[i].data == h.levels[i].data
    requires h'.at == h.at[PriceToIndex(price) := l] && g'.queue.Keys == g.queue.Keys + {l}
    ensures AtOk(h', g')
  {
    assert forall m :: m in g'.queue <==> m in g.queue || m == l;
  }

  lemma LevelHome(g: Shape, side: Side, k: nat, l: nat, n: nat)
    requires HomeOk(g) && k <= |g.On(side)| && l !in g.queue && n !in g.home
    ensures HomeOk(LevelShape(g, side, k, l, n))
  {
    var g' := LevelShape(g, side, k, l, n);
    forall m | m in g'.queue
      ensures forall i :: 0 <= i < |g'.queue[m]| ==> g'.queue[m][i] in g'.home && g'.home[g'.queue[m][i]] == m
    {
      if m != l {
        assert forall i :: 0 <= i < |g.queue[m]| ==> g.queue[m][i] in g.home && g.home[g.queue[m][i]] == m;
      }
    }
  }

  lemma LevelAtIndex<K>(h: Heap<K>, g: Shape, k: nat, l: nat, n: nat, o: Order<K>)
    requires CanLevel(h, g, k, l, n, o)
    ensures var h', g' := LevelHeap(h, g, k, l, n, o), LevelShape(g, o.side, k, l, n);
            AtOk(h', g') && IndexOk(h', g')
  {
    hide WellFormed, LadderOk, QueuesOk, QueueOk, AtOk, HomeOk, IndexOk;
    var h', g' := LevelHeap(h, g, k, l, n, o), LevelShape(g, o.side, k, l, n);
    Parts(h, g);
    LeveledData(h.levels, g.On(o.side), k, l, LevelData(o.side, o.price, n));
    assert g'.queue.Keys == g.queue.Keys + {l};
    LevelAt(h, g, h', g', l, o.price);
    IndexAdd(h, g, h', g', n, o, l);
  }

  lemma QueuesOnly<K>(h: Heap<K>, g: Shape, g': Shape)
    requires QueuesOk(h, g) && g'.queue == g.queue
    ensures QueuesOk(h, g')
  {
  }

  lemma LevelQueuesOk<K>(h: Heap<K>, g: Shape, k: nat, l: nat, n: nat, o: Order<K>)
    requires CanLevel(h, g, k, l, n, o)
    ensures QueuesOk(LevelHeap(h, g, k, l, n, o), LevelShape(g, o.side, k, l, n))
  {
    hide WellFormed, LadderOk, QueuesOk, QueueOk, AtOk, HomeOk, IndexOk;
    Parts(h, g);
    LeveledData(h.levels, g.On(o.side), k, l, LevelData(o.side, o.price, n));
    LevelQueues(h, g, LevelHeap(h, g, k, l, n, o), l, n, o);
    QueuesOnly(LevelHeap(h, g, k, l, n, o), g.(queue := g.queue[l := [n]]), LevelShape(g, o.side, k, l, n));
  }

  lemma LevelKeeps<K>(h: Heap<K>, g: Shape, k: nat, l: nat, n: nat, o: Order<K>)
    requires CanLevel(h, g, k, l, n, o)
    ensures WellFormed(LevelHeap(h, g, k, l, n, o), LevelShape(g, o.side, k, l, n))
  {
    hide WellFormed, LadderOk, QueuesOk, QueueOk, AtOk, HomeOk, IndexOk;
    Parts(h, g);
    LevelLadders(h, g, k, l, n, o);
    LevelLevels(g, o.side, k, l, n);
    LevelQueuesOk(h, g, k, l, n, o);
    LevelAtIndex(h, g, k, l, n, o);
    LevelHome(g, o.side, k, l, n);
    Assemble(LevelHeap(h, g, k, l, n, o), LevelShape(g, o.side, k, l, n));
  }

  lemma RemovedMembers(r: seq<nat>, k: nat)
    requires Distinct(r) && k < |r|
    ensures forall x :: x in Removed(r, k) <==> x in r && x != r[k]
  {
    RemovedAt(r, k);
    var r' := Removed(r, k);
    forall x | x in r && x != r[k]
      ensures x in r'
    {
      var i :| 0 <= i < |r| && r[i] == x;
      assert r'[if i < k then i else i - 1] == x;
    }
    forall x | x in r'
      ensures x in r && x != r[k]
    {
      var i :| 0 <= i < |r'| && r'[i] == x;
      SameSlot(r, if i < k then i else i + 1, k);
    }
  }

  // ----- an order leaves a level that keeps others -----

  /** Order slot `s` stands at position `i` of level `l`. */
  ghost predicate StandsAt<K>(h: Heap<K>, g: Shape, s: nat, l: nat, i: nat) {
    && WellFormed(h, g) && s in g.home && g.home[s] == l && l in g.queue && l < |h.levels|
    && i < |g.queue[l]| && g.queue[l][i] == s && s < |h.orders|
  }

  function LeaveHeap<K>(h: Heap<K>, g: Shape, s: nat, l: nat, i: nat): Heap<K>
    requires StandsAt(h, g, s, l, i)
  {
    var q := g.queue[l];
    assert QueueOk(h.levels[l].data, h.orders, q);
    var first := if i == 0 then After(q, 0) else q[0];
    h.(orders := Unlink(h.orders, s, Before(q, i), After(q, i)),
       levels := h.levels[l := h.levels[l].(data := h.levels[l].data.(first := first))],
       index := h.index - {h.orders[s].data.key})
  }

  function LeaveShape(g: Shape, s: nat, l: nat, i: nat): Shape
    requires l in g.queue && i < |g.queue[l]|
  {
    g.(queue := g.queue[l := Removed(g.queue[l], i)], home := g.home - {s})
  }

  lemma LeaveQueue<K>(level: LevelData, orders: seq<Node<Order<K>>>, q: seq<nat>, i: nat)
    requires QueueOk(level, orders, q) && 1 < |q| && i < |q|
    ensures QueueOk(level.(first := if i == 0 then After(q, 0) else q[0]),
                    Unlink(orders, q[i], Before(q, i), After(q, i)), Removed(q, i))
  {
    UnlinkRing(orders, q, i);
    UnlinkFrame(orders, q[i], Before(q, i), After(q, i));
    RemovedAt(q, i);
    var orders' := Unlink(orders, q[i], Before(q, i), After(q, i));
    var q' := Removed(q, i);
    forall j | 0 <= j < |q'|
      ensures orders'[q'[j]].data == orders[q[if j < i then j else j + 1]].data
    {
      assert q'[j] == q[if j < i then j else j + 1];
    }
  }

  lemma LeaveQueues<K>(h: Heap<K>, g: Shape, s: nat, l: nat, i: nat)
    requires StandsAt(h, g, s, l, i) && 1 < |g.queue[l]|
    ensures QueuesOk(LeaveHeap(h, g, s, l, i), LeaveShape(g, s, l, i))
  {
    hide WellFormed, LadderOk, QueueOk, AtOk, HomeOk, IndexOk;
    var h', g' := LeaveHeap(h, g, s, l, i), LeaveShape(g, s, l, i);
    Parts(h, g);
    QueueParts(h, g, l);
    LeaveQueue(h.levels[l].data, h.orders, g.queue[l], i);
    forall m | m in g'.queue
      ensures m < |h'.levels| && QueueOk(h'.levels[m].data, h'.orders, g'.queue[m])
    {
      if m != l {
        LeaveOtherQueue(h, g, s, l, i, m);
      }
    }
  }

  lemma LeaveOtherQueue<K>(h: Heap<K>, g: Shape, s: nat, l: nat, i: nat, m: nat)
    requires StandsAt(h, g, s, l, i) && m in g.queue && m != l && m < |h.levels|
    ensures QueueOk(h.levels[m].data, LeaveHeap(h, g, s, l, i).orders, g.queue[m])
  {
    hide WellFormed, LadderOk, QueuesOk, QueueOk, AtOk, HomeOk, IndexOk;
    var q := g.queue[l];
    Parts(h, g);
    QueueParts(h, g, l);
    QueueParts(h, g, m);
    assert Before(q, i) in q && After(q, i) in q && s in q;
    UntouchedQueue(g, l, m, s, Before(q, i), After(q, i));
    UnlinkFrame(h.orders, s, Before(q, i), After(q, i));
    QueueFrame(h.levels[m].data, h.orders, Unlink(h.orders, s, Before(q, i), After(q, i)), g.queue[m]);
  }

  lemma LeaveHome(g: Shape, s: nat, l: nat, i: nat)
    requires HomeOk(g) && l in g.queue && i < |g.queue[l]| && g.queue[l][i] == s && Distinct(g.queue[l])
    ensures HomeOk(LeaveShape(g, s, l, i))
  {
    var g', q := LeaveShape(g, s, l, i), g.queue[l];
    RemovedMembers(q, i);
    forall m | m in g'.queue
      ensures forall j :: 0 <= j < |g'.queue[m]| ==> g'.queue[m][j] in g'.home && g'.home[g'.queue[m][j]] == m
    {
      forall j | 0 <= j < |g'.queue[m]|
        ensures g'.queue[m][j] in g'.home && g'.home[g'.queue[m][j]] == m
      {
        StillHome(g, s, l, i, m, g'.queue[m][j]);
      }
    }
  }

  lemma StillHome(g: Shape, s: nat, l: nat, i: nat, m: nat, x: nat)
    requires HomeOk(g) && l in g.queue && i < |g.queue[l]| && g.queue[l][i] == s && Distinct(g.queue[l])
    requires m in g.queue && x in LeaveShape(g, s, l, i).queue[m]
    ensures x in g.home && g.home[x] == m && x != s
  {
    RemovedMembers(g.queue[l], i);
    assert g.home[s] == l;
    assert x in g.queue[m];
  }

  lemma LeaveLadders<K>(h: Heap<K>, g: Shape, s: nat, l: nat, i: nat)
    requires StandsAt(h, g, s, l, i)
    ensures LadderOk(LeaveHeap(h, g, s, l, i).levels, g.bids, BUY)
    ensures LadderOk(LeaveHeap(h, g, s, l, i).levels, g.asks, SELL)
  {
    hide WellFormed, LadderOk, QueuesOk, QueueOk, AtOk, HomeOk, IndexOk;
    Parts(h, g);
    LaddersFrame(h, g, LeaveHeap(h, g, s, l, i).levels);
  }

  /** Moving a level's first pointer or changing its queue does not concern the level index. */
  lemma FirstMoves<K>(h: Heap<K>, g: Shape, h': Heap<K>, g': Shape, l: nat, first: int, q: seq<nat>)
    requires AtOk(h, g) && l in g.queue && l < |h.levels| && h'.at == h.at
    requires h'.levels == h.levels[l := h.levels[l].(data := h.levels[l].data.(first := first))]
    requires g'.queue == g.queue[l := q]
    ensures AtOk(h', g')
  {
    assert forall i :: 0 <= i < |h.levels| ==> h'.levels[i].data.price == h.levels[i].data.price;
    AtFrame(h, g, h', g');
  }

  lemma LeaveIndex<K>(h: Heap<K>, g: Shape, s: nat, l: nat, i: nat)
    requires StandsAt(h, g, s, l, i)
    ensures IndexOk(LeaveHeap(h, g, s, l, i), LeaveShape(g, s, l, i))
  {
    hide WellFormed, LadderOk, QueuesOk, QueueOk, AtOk, HomeOk, IndexOk;
    var q := g.queue[l];
    Parts(h, g);
    QueueParts(h, g, l);
    UnlinkFrame(h.orders, s, Before(q, i), After(q, i));
    IndexDrop(h, g, LeaveHeap(h, g, s, l, i), LeaveShape(g, s, l, i), s);
  }

  lemma LeaveKeeps<K>(h: Heap<K>, g: Shape, s: nat, l: nat, i: nat)
    requires StandsAt(h, g, s, l, i) && 1 < |g.queue[l]|
    ensures WellFormed(LeaveHeap(h, g, s, l, i), LeaveShape(g, s, l, i))
  {
    hide WellFormed, LadderOk, QueuesOk, QueueOk, AtOk, HomeOk, IndexOk;
    Parts(h, g);
    QueueParts(h, g, l);
    LeaveLadders(h, g, s, l, i);
    FirstMoves(h, g, LeaveHeap(h, g, s, l, i), LeaveShape(g, s, l, i), l,
               if i == 0 then After(g.queue[l], 0) else g.queue[l][0], Removed(g.queue[l], i));
    LeaveIndex(h, g, s, l, i);
    LeaveQueues(h, g, s, l, i);
    LeaveHome(g, s, l, i);
    LeaveLevels(g, s, l, i);
    Assemble(LeaveHeap(h, g, s, l, i), LeaveShape(g, s, l, i));
  }

  lemma LeaveLevels(g: Shape, s: nat, l: nat, i: nat)
    requires LevelsOk(g) && l in g.queue && i < |g.queue[l]|
    ensures LevelsOk(LeaveShape(g, s, l, i))
  {
  }

  // ----- the last order of a level leaves, and the level with it -----

  function UnlevelLevels(levels: seq<Node<LevelData>>, ring: seq<nat>, k: nat): seq<Node<LevelData>>
    requires k < |ring| && InStore(levels, ring)
  {
    if |ring| == 1 then levels else Unlink(levels, ring[k], Before(ring, k), After(ring, k))
  }

  function UnlevelHeap<K>(h: Heap<K>, g: Shape, side: Side, k: nat, s: nat): Heap<K>
    requires WellFormed(h, g) && IsTradeSide(side) && k < |g.On(side)| && s < |h.orders|
  {
    h.(levels := UnlevelLevels(h.levels, g.On(side), k),
       at := h.at[PriceToIndex(h.levels[g.On(side)[k]].data.price) := NULL],
       index := h.index - {h.orders[s].data.key})
  }

  function UnlevelShape(g: Shape, side: Side, k: nat, s: nat): Shape
    requires k < |g.On(side)|
  {
    g.With(side, Removed(g.On(side), k)).(queue := g.queue - {g.On(side)[k]}, home := g.home - {s})
  }

  lemma UnlevelData(levels: seq<Node<LevelData>>, ring: seq<nat>, k: nat)
    requires k < |ring| && InStore(levels, ring)
    ensures |UnlevelLevels(levels, ring, k)| == |levels|
    ensures forall i :: 0 <= i < |levels| ==> UnlevelLevels(levels, ring, k)[i].data == levels[i].data
    ensures forall i :: 0 <= i < |levels| && i !in ring ==> UnlevelLevels(levels, ring, k)[i] == levels[i]
  {
    if |ring| > 1 {
      UnlinkFrame(levels, ring[k], Before(ring, k), After(ring, k));
    }
  }

  lemma UnlevelLadder(levels: seq<Node<LevelData>>, ring: seq<nat>, side: Side, k: nat)
    requires LadderOk(levels, ring, side) && k < |ring|
    ensures LadderOk(UnlevelLevels(levels, ring, k), Removed(ring, k), side)
  {
    RemovedAt(ring, k);
    UnlevelData(levels, ring, k);
    if |ring| > 1 {
      UnlinkRing(levels, ring, k);
    }
    var r' := Removed(ring, k);
    assert forall i :: 0 <= i < |r'| ==> r'[i] == ring[if i < k then i else i + 1];
  }

  lemma OtherUnleveled(levels: seq<Node<LevelData>>, own: seq<nat>, other: seq<nat>, side: Side, k: nat)
    requires LadderOk(levels, other, side) && InStore(levels, own) && k < |own|
    requires forall i :: 0 <= i < |other| ==> other[i] !in own
    ensures LadderOk(UnlevelLevels(levels, own, k), other, side)
  {
    UnlevelData(levels, own, k);
    LadderFrame(levels, UnlevelLevels(levels, own, k), other, side);
  }

  lemma UnlevelLadders<K>(h: Heap<K>, g: Shape, side: Side, k: nat, s: nat)
    requires WellFormed(h, g) && IsTradeSide(side) && k < |g.On(side)| && s < |h.orders|
    ensures var h', g' := UnlevelHeap(h, g, side, k, s), UnlevelShape(g, side, k, s);
            LadderOk(h'.levels, g'.bids, BUY) && LadderOk(h'.levels, g'.asks, SELL)
  {
    hide WellFormed, LadderOk, QueuesOk, QueueOk, AtOk, HomeOk, IndexOk;
    Parts(h, g);
    var own, other := g.On(side), g.On(Opposite(side));
    UnlevelLadder(h.levels, own, side, k);
    SidesApart(h.levels, own, other, side);
    OtherUnleveled(h.levels, own, other, Opposite(side), k);
  }

  lemma UnlevelLevelsOk<K>(h: Heap<K>, g: Shape, side: Side, k: nat, s: nat)
    requires WellFormed(h, g) && IsTradeSide(side) && k < |g.On(side)|
    ensures LevelsOk(UnlevelShape(g, side, k, s))
  {
    hide WellFormed, LadderOk, QueuesOk, AtOk, HomeOk, IndexOk;
    Parts(h, g);
    RemovedMembers(g.On(side), k);
    SidesApart(h.levels, g.On(side), g.On(Opposite(side)), side);
    assert g.On(side)[k] !in g.On(Opposite(side));
  }

  ghost predicate LastOrder<K>(h: Heap<K>, g: Shape, side: Side, k: nat, s: nat) {
    && WellFormed(h, g) && IsTradeSide(side) && k < |g.On(side)| && s < |h.orders|
    && g.On(side)[k] in g.queue && g.queue[g.On(side)[k]] == [s] && s in g.home && g.home[s] == g.On(side)[k]
  }

  lemma UnlevelQueues<K>(h: Heap<K>, g: Shape, h': Heap<K>, l: nat)
    requires QueuesOk(h, g) && |h'.levels| == |h.levels| && h'.orders == h.orders
    requires forall i :: 0 <= i < |h.levels| ==> h'.levels[i].data == h.levels[i].data
    ensures QueuesOk(h', g.(queue := g.queue - {l}))
  {
  }

  lemma UnlevelAt<K>(h: Heap<K>, g: Shape, h': Heap<K>, g': Shape, l: nat)
    requires AtOk(h, g) && l in g.queue && |h'.levels| == |h.levels|
    requires forall i :: 0 <= i < |h.levels| ==> h'.levels[i].data == h.levels[i].data
    requires h'.at == h.at[PriceToIndex(h.levels[l].data.price) := NULL] && g'.queue.Keys == g.queue.Keys - {l}
    ensures AtOk(h', g')
  {
    assert forall m :: m in g'.queue <==> m in g.queue && m != l;
  }

  lemma UnlevelHome(g: Shape, side: Side, k: nat, s: nat)
    requires HomeOk(g) && k < |g.On(side)| && g.On(side)[k] in g.queue
    requires g.queue[g.On(side)[k]] == [s] && s in g.home && g.home[s] == g.On(side)[k]
    ensures HomeOk(UnlevelShape(g, side, k, s))
  {
    var g', l := UnlevelShape(g, side, k, s), g.On(side)[k];
    forall m | m in g'.queue
      ensures forall i :: 0 <= i < |g'.queue[m]| ==> g'.queue[m][i] in g'.home && g'.home[g'.queue[m][i]] == m
    {
      assert forall i :: 0 <= i < |g.queue[m]| ==> g.queue[m][i] in g.home && g.home[g.queue[m][i]] == m;
    }
    forall x | x in g'.home
      ensures g'.home[x] in g'.queue
    {
      assert x in g.queue[g.home[x]] && x != s;
    }
  }

  lemma UnlevelKeeps<K>(h: Heap<K>, g: Shape, side: Side, k: nat, s: nat)
    requires LastOrder(h, g, side, k, s)
    ensures WellFormed(UnlevelHeap(h, g, side, k, s), UnlevelShape(g, side, k, s))
  {
    hide WellFormed, LadderOk, QueuesOk, QueueOk, AtOk, HomeOk, IndexOk;
    Parts(h, g);
    UnlevelLadders(h, g, side, k, s);
    UnlevelLevelsOk(h, g, side, k, s);
    var h', g', l := UnlevelHeap(h, g, side, k, s), UnlevelShape(g, side, k, s), g.On(side)[k];
    UnlevelData(h.levels, g.On(side), k);
    UnlevelQueues(h, g, h', l);
    QueuesOnly(h', g.(queue := g.queue - {l}), g');
    assert g'.queue.Keys == g.queue.Keys - {l};
    UnlevelAt(h, g, h', g', l);
    UnlevelHome(g, side, k, s);
    IndexDrop(h, g, h', g', s);
    Assemble(h', g');
  }

  // ----- an order changes its quantity -----

  function ResizeHeap<K>(h: Heap<K>, s: nat, qty: nat): Heap<K>
    requires s < |h.orders|
  {
    h.(orders := h.orders[s := h.orders[s].(data := h.orders[s].data.(qty := qty))])
  }

  lemma ResizeQueue<K>(level: LevelData, orders: seq<Node<Order<K>>>, q: seq<nat>, s: nat, qty: nat)
    requires QueueOk(level, orders, q) && s < |orders|
    ensures QueueOk(level, orders[s := orders[s].(data := orders[s].data.(qty := qty))], q)
  {
    RingFrame(orders, orders[s := orders[s].(data := orders[s].data.(qty := qty))], q);
  }

  lemma IndexSame<K>(h: Heap<K>, g: Shape, h': Heap<K>)
    requires IndexOk(h, g) && h'.index == h.index && |h'.orders| == |h.orders|
    requires forall i :: 0 <= i < |h.orders| ==> h'.orders[i].data.key == h.orders[i].data.key
    ensures IndexOk(h', g)
  {
  }

  lemma ResizeKeeps<K>(h: Heap<K>, g: Shape, s: nat, qty: nat)
    requires WellFormed(h, g) && s < |h.orders|
    ensures WellFormed(ResizeHeap(h, s, qty), g)
  {
    hide WellFormed, LadderOk, QueueOk, AtOk, HomeOk, IndexOk;
    var h' := ResizeHeap(h, s, qty);
    Parts(h, g);
    forall l | l in g.queue
      ensures l < |h.levels| && QueueOk(h'.levels[l].data, h'.orders, g.queue[l])
    {
      ResizeQueue(h.levels[l].data, h.orders, g.queue[l], s, qty);
    }
    AtFrame(h, g, h', g);
    IndexSame(h, g, h');
    Assemble(h', g);
  }
}
