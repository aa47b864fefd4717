/** The memory layout of an order book: a ring of price levels for each side, a ring of orders for
    each level, an index of levels by price slot and an index of orders by name. This module says
    when such a layout is well formed, what book it stands for, and what each pointer operation
    does to both. */
module BookHeap {
  import opened Common
  import opened Ladder
  import opened PriceSlots
  import opened Rings

  datatype LevelData = LevelData(side: Side, price: int, first: int)

  /** The stores behind both pools and the two indexes. */
  datatype Heap<K> = Heap(levels: seq<Node<LevelData>>, orders: seq<Node<Order<K>>>, at: seq<int>, index: map<K, nat>)

  /** The rings, from the best level and the oldest order on, and the level each order is in. */
  datatype Shape = Shape(bids: seq<nat>, asks: seq<nat>, queue: map<nat, seq<nat>>, home: map<nat, nat>)
  {
    function On(side: Side): seq<nat> {
      if side == BUY then bids else asks
    }

    function With(side: Side, r: seq<nat>): Shape {
      if side == BUY then this.(bids := r) else this.(asks := r)
    }
  }

  // ----- well-formedness -----

  /** A side's levels form a ring, best price first, strictly sorted. */
  ghost predicate LadderOk(levels: seq<Node<LevelData>>, ring: seq<nat>, side: Side) {
    && Ring(levels, ring)
    && (forall i :: 0 <= i < |ring| ==> levels[ring[i]].data.side == side)
    && (forall i, j :: 0 <= i < j < |ring| ==> Better(side, levels[ring[i]].data.price, levels[ring[j]].data.price))
  }

  /** A level's orders form a ring, oldest first, with the level's side and price and strictly
      rising priorities. */
  ghost predicate QueueOk<K>(level: LevelData, orders: seq<Node<Order<K>>>, q: seq<nat>) {
    && |q| > 0 && Ring(orders, q) && level.first == q[0]
    && (forall i :: 0 <= i < |q| ==> BelongsTo(level, orders[q[i]].data))
    && (forall i, j :: 0 <= i < j < |q| ==> orders[q[i]].data.priority < orders[q[j]].data.priority)
  }

  predicate BelongsTo<K>(level: LevelData, o: Order<K>) {
    o.side == level.side && o.price == level.price
  }

  ghost predicate QueuesOk<K>(h: Heap<K>, g: Shape) {
    forall l :: l in g.queue ==> l < |h.levels| && QueueOk(h.levels[l].data, h.orders, g.queue[l])
  }

  /** The levels in use are those in the two rings. */
  ghost predicate LevelsOk(g: Shape) {
    forall l :: l in g.queue <==> l in g.bids || l in g.asks
  }

  /** The level index holds exactly the levels in use, each at the slot of its price. */
  ghost predicate AtOk<K>(h: Heap<K>, g: Shape) {
    && |h.at| == ME_MAX_PRICE_LEVELS
    && (forall l :: l in g.queue ==> l < |h.levels| && h.at[PriceToIndex(h.levels[l].data.price)] == l)
    && (forall i :: 0 <= i < |h.at| && h.at[i] != NULL ==>
          h.at[i] >= 0 && h.at[i] in g.queue && PriceToIndex(h.levels[h.at[i]].data.price) == i)
  }

  /** `home` lists exactly the queued orders, each with its level. */
  ghost predicate HomeOk(g: Shape) {
    && (forall l :: l in g.queue ==> forall i :: 0 <= i < |g.queue[l]| ==>
        g.queue[l][i] in g.home && g.home[g.queue[l][i]] == l)
    && (forall s :: s in g.home ==> g.home[s] in g.queue && s in g.queue[g.home[s]])
  }

  /** The order index names exactly the queued orders. */
  ghost predicate IndexOk<K>(h: Heap<K>, g: Shape) {
    && (forall k :: k in h.index ==>
        h.index[k] in g.home && h.index[k] < |h.orders| && h.orders[h.index[k]].data.key == k)
    && (forall s :: s in g.home ==>
        s < |h.orders| && h.orders[s].data.key in h.index && h.index[h.orders[s].data.key] == s)
  }

  ghost predicate WellFormed<K>(h: Heap<K>, g: Shape) {
    && LadderOk(h.levels, g.bids, BUY) && LadderOk(h.levels, g.asks, SELL)
    && LevelsOk(g) && QueuesOk(h, g) && AtOk(h, g) && HomeOk(g) && IndexOk(h, g)
  }

  datatype LayoutData<K> = LayoutData(heap: Heap<K>, shape: Shape)

  ghost function EmptyLayout<K>(): LayoutData<K> {
    LayoutData(Heap([], [], seq(ME_MAX_PRICE_LEVELS, _ => NULL), map[]), Shape([], [], map[], map[]))
  }

  /** Well-formed layouts. */
  type Layout<K> = d: LayoutData<K> | WellFormed(d.heap, d.shape) ghost witness EmptyLayout<K>()

  // ----- the book a layout stands for -----

  /** The order slots of a stretch of levels, queue after queue. */
  function Slots(queue: map<nat, seq<nat>>, ring: seq<nat>): seq<nat> {
    if ring == [] then []
    else (if ring[0] in queue then queue[ring[0]] else []) + Slots(queue, ring[1..])
  }

  ghost predicate Within<K>(orders: seq<Node<Order<K>>>, slots: seq<nat>) {
    forall i :: 0 <= i < |slots| ==> slots[i] < |orders|
  }

  function Values<K>(orders: seq<Node<Order<K>>>, slots: seq<nat>): (r: seq<Order<K>>)
    requires Within(orders, slots)
    ensures |r| == |slots|
    ensures forall i :: 0 <= i < |slots| ==> r[i] == orders[slots[i]].data
  {
    seq(|slots|, i requires 0 <= i < |slots| => orders[slots[i]].data)
  }

  lemma {:induction false} SlotsSplit(queue: map<nat, seq<nat>>, a: seq<nat>, b: seq<nat>)
    ensures Slots(queue, a + b) == Slots(queue, a) + Slots(queue, b)
  {
    if a == [] {
      assert a + b == b;
    } else {
      assert (a + b)[0] == a[0] && (a + b)[1..] == a[1..] + b;
      SlotsSplit(queue, a[1..], b);
    }
  }

  lemma SlotsOne(queue: map<nat, seq<nat>>, l: nat)
    requires l in queue
    ensures Slots(queue, [l]) == queue[l]
  {
    assert [l][1..] == [];
  }

  lemma {:induction false} SlotsFrame(queue: map<nat, seq<nat>>, queue': map<nat, seq<nat>>, ring: seq<nat>)
    requires forall i :: 0 <= i < |ring| ==> ring[i] in queue && ring[i] in queue' && queue[ring[i]] == queue'[ring[i]]
    ensures Slots(queue, ring) == Slots(queue', ring)
  {
    if ring != [] {
      SlotsFrame(queue, queue', ring[1..]);
    }
  }

  /** Every slot of a stretch of levels is at home in one of them. */
  lemma {:induction false} SlotsAtHome(g: Shape, ring: seq<nat>)
    requires HomeOk(g) && forall i :: 0 <= i < |ring| ==> ring[i] in g.queue
    ensures forall i :: 0 <= i < |Slots(g.queue, ring)| ==>
              Slots(g.queue, ring)[i] in g.home && g.home[Slots(g.queue, ring)[i]] in ring
  {
    if ring != [] {
      assert forall i :: 0 <= i < |ring[1..]| ==> ring[1..][i] == ring[i + 1];
      SlotsAtHome(g, ring[1..]);
      var first, rest := g.queue[ring[0]], Slots(g.queue, ring[1..]);
      forall i | 0 <= i < |first + rest|
        ensures (first + rest)[i] in g.home && g.home[(first + rest)[i]] in ring
      {
        if i >= |first| {
          assert (first + rest)[i] == rest[i - |first|];
          assert g.home[rest[i - |first|]] in ring[1..];
        } else {
          assert g.home[first[i]] == ring[0] && ring[0] in ring;
        }
      }
    }
  }

  ghost predicate RingsIn(g: Shape) {
    (forall i :: 0 <= i < |g.bids| ==> g.bids[i] in g.queue) && (forall i :: 0 <= i < |g.asks| ==> g.asks[i] in g.queue)
  }

  lemma RingsInUse(g: Shape)
    requires LevelsOk(g)
    ensures RingsIn(g)
  {
    assert forall i :: 0 <= i < |g.bids| ==> g.bids[i] in g.bids;
    assert forall i :: 0 <= i < |g.asks| ==> g.asks[i] in g.asks;
  }

  /** The parts of well-formedness, for proofs that hide its definition. */
  lemma Parts<K>(h: Heap<K>, g: Shape)
    requires WellFormed(h, g)
    ensures LadderOk(h.levels, g.bids, BUY) && LadderOk(h.levels, g.asks, SELL)
    ensures LevelsOk(g) && RingsIn(g) && QueuesOk(h, g) && AtOk(h, g) && HomeOk(g) && IndexOk(h, g)
    ensures Distinct(g.bids) && Distinct(g.asks)
  {
    RingsInUse(g);
  }

  lemma QueueParts<K>(h: Heap<K>, g: Shape, l: nat)
    requires WellFormed(h, g) && l in g.queue
    ensures l < |h.levels| && QueueOk(h.levels[l].data, h.orders, g.queue[l])
    ensures |g.queue[l]| > 0 && Distinct(g.queue[l]) && InStore(h.orders, g.queue[l])
    ensures h.levels[l].data.first == g.queue[l][0]
    ensures forall i :: 0 <= i < |g.queue[l]| ==> g.queue[l][i] in g.home && g.home[g.queue[l][i]] == l
  {
  }

  lemma SideWithin<K>(h: Heap<K>, g: Shape, side: Side)
    requires WellFormed(h, g)
    ensures Within(h.orders, Slots(g.queue, g.On(side)))
  {
    RingsInUse(g);
    SlotsAtHome(g, g.On(side));
  }

  /** One side of the book, in trading order. */
  ghost function Flat<K>(h: Heap<K>, g: Shape, side: Side): seq<Order<K>>
    requires WellFormed(h, g)
  {
    SideWithin(h, g, side);
    Values(h.orders, Slots(g.queue, g.On(side)))
  }

  /** A queued order has the side and price of its level. */
  lemma AtHome<K>(h: Heap<K>, g: Shape, s: nat)
    requires WellFormed(h, g) && s in g.home
    ensures s < |h.orders| && g.home[s] in g.queue && g.home[s] < |h.levels|
    ensures BelongsTo(h.levels[g.home[s]].data, h.orders[s].data)
    ensures h.at[PriceToIndex(h.orders[s].data.price)] == g.home[s]
  {
    var l := g.home[s];
    var i :| 0 <= i < |g.queue[l]| && g.queue[l][i] == s;
    assert BelongsTo(h.levels[l].data, h.orders[g.queue[l][i]].data);
  }
}
