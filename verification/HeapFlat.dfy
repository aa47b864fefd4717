/** What each pointer operation does to the book the layout stands for: it is the corresponding
    operation on the list of orders in trading order. */
module HeapFlat {
  import opened Common
  import opened Ladder
  import opened PriceSlots
  import opened Rings
  import opened BookHeap
  import opened HeapOps

  // ----- lists of slots against lists of orders -----

  lemma EnqueueValues<K>(orders: seq<Node<Order<K>>>, orders': seq<Node<Order<K>>>, front: seq<nat>, n: nat,
          back: seq<nat>)
    requires Within(orders, front) && Within(orders, back) && |orders'| == |orders| && n < |orders|
    requires forall i :: 0 <= i < |orders| && i != n ==> orders'[i].data == orders[i].data
    requires n !in front && n !in back
    requires var o := orders'[n].data;
             && (forall i :: 0 <= i < |front| ==> !Better(o.side, o.price, orders[front[i]].data.price))
             && (forall i :: 0 <= i < |back| ==> Better(o.side, o.price, orders[back[i]].data.price))
    ensures Within(orders, front + back) && Within(orders', front + [n] + back)
    ensures Values(orders', front + [n] + back) == Enqueue(Values(orders, front + back), orders'[n].data)
  {
    ValuesConcat(orders, front, back);
    ValuesFrame(orders, orders', front);
    ValuesFrame(orders, orders', back);
    ValuesConcat(orders', front, [n]);
    ValuesConcat(orders', front + [n], back);
    assert Values(orders', [n]) == [orders'[n].data];
    EnqueueAt(Values(orders, front), Values(orders, back), orders'[n].data);
  }

  lemma DropValues<K>(orders: seq<Node<Order<K>>>, orders': seq<Node<Order<K>>>, front: seq<nat>, s: nat,
          back: seq<nat>)
    requires Within(orders, front) && Within(orders, back) && |orders'| == |orders| && s < |orders|
    requires forall i :: 0 <= i < |orders| ==> orders'[i].data == orders[i].data
    requires forall i :: 0 <= i < |front| ==> orders[front[i]].data.key != orders[s].data.key
    ensures Within(orders, front + [s] + back) && Within(orders', front + back)
    ensures Values(orders', front + back) == Drop(Values(orders, front + [s] + back), orders[s].data.key)
  {
    ValuesConcat(orders, front, [s]);
    ValuesConcat(orders, front + [s], back);
    ValuesConcat(orders', front, back);
    ValuesFrame(orders, orders', front);
    ValuesFrame(orders, orders', back);
    assert Values(orders, [s]) == [orders[s].data];
    DropAt(Values(orders, front), orders[s].data, Values(orders, back));
  }

  lemma ResizeValues<K>(orders: seq<Node<Order<K>>>, orders': seq<Node<Order<K>>>, front: seq<nat>, s: nat,
          back: seq<nat>, qty: nat)
    requires Within(orders, front) && Within(orders, back) && |orders'| == |orders| && s < |orders|
    requires forall i :: 0 <= i < |orders| && i != s ==> orders'[i].data == orders[i].data
    requires orders'[s].data == orders[s].data.(qty := qty) && s !in front && s !in back
    requires forall i :: 0 <= i < |front| ==> orders[front[i]].data.key != orders[s].data.key
    ensures Within(orders, front + [s] + back) && Within(orders', front + [s] + back)
    ensures Values(orders', front + [s] + back) == Resize(Values(orders, front + [s] + back), orders[s].data.key, qty)
  {
    ValuesConcat(orders, front, [s]);
    ValuesConcat(orders, front + [s], back);
    ValuesConcat(orders', front, [s]);
    ValuesConcat(orders', front + [s], back);
    ValuesFrame(orders, orders', front);
    ValuesFrame(orders, orders', back);
    assert Values(orders, [s]) == [orders[s].data] && Values(orders', [s]) == [orders'[s].data];
    ResizeAt(Values(orders, front), orders[s].data, Values(orders, back), qty);
  }

  // ----- where slots lie -----

  lemma StretchOf<K>(h: Heap<K>, g: Shape, stretch: seq<nat>)
    requires HomeOk(g) && IndexOk(h, g) && forall i :: 0 <= i < |stretch| ==> stretch[i] in g.queue
    ensures var slots := Slots(g.queue, stretch);
            && Within(h.orders, slots)
            && forall i :: 0 <= i < |slots| ==> slots[i] in g.home && g.home[slots[i]] in stretch
  {
    SlotsAtHome(g, stretch);
  }

  /** Orders of the first `k` levels are not worse than `price` when those levels are not. */
  lemma FrontPrices<K>(h: Heap<K>, g: Shape, side: Side, k: nat, price: int)
    requires WellFormed(h, g) && IsTradeSide(side) && k <= |g.On(side)|
    requires forall i :: 0 <= i < k ==> !Better(side, price, h.levels[g.On(side)[i]].data.price)
    ensures var front := Slots(g.queue, g.On(side)[..k]);
            && Within(h.orders, front)
            && forall i :: 0 <= i < |front| ==> !Better(side, price, h.orders[front[i]].data.price)
  {
    hide WellFormed, LadderOk, QueuesOk, QueueOk, AtOk, HomeOk, IndexOk;
    var front := Slots(g.queue, g.On(side)[..k]);
    Parts(h, g);
    StretchOf(h, g, g.On(side)[..k]);
    forall i | 0 <= i < |front|
      ensures !Better(side, price, h.orders[front[i]].data.price)
    {
      AtHome(h, g, front[i]);
      var j :| 0 <= j < k && g.On(side)[j] == g.home[front[i]];
    }
  }

  lemma BackPrices<K>(h: Heap<K>, g: Shape, side: Side, k: nat, price: int)
    requires WellFormed(h, g) && IsTradeSide(side) && k <= |g.On(side)|
    requires forall i :: k <= i < |g.On(side)| ==> Better(side, price, h.levels[g.On(side)[i]].data.price)
    ensures var back := Slots(g.queue, g.On(side)[k..]);
            && Within(h.orders, back)
            && forall i :: 0 <= i < |back| ==> Better(side, price, h.orders[back[i]].data.price)
  {
    hide WellFormed, LadderOk, QueuesOk, QueueOk, AtOk, HomeOk, IndexOk;
    var back := Slots(g.queue, g.On(side)[k..]);
    Parts(h, g);
    StretchOf(h, g, g.On(side)[k..]);
    forall i | 0 <= i < |back|
      ensures Better(side, price, h.orders[back[i]].data.price)
    {
      AtHome(h, g, back[i]);
      var j :| k <= j < |g.On(side)| && g.On(side)[j] == g.home[back[i]];
    }
  }

  lemma NotInSlots<K>(h: Heap<K>, g: Shape, side: Side, n: nat)
    requires WellFormed(h, g) && n !in g.home
    ensures n !in Slots(g.queue, g.On(side))
  {
    hide WellFormed, LadderOk, QueuesOk, QueueOk, AtOk, HomeOk, IndexOk;
    Parts(h, g);
    SlotsAtHome(g, g.On(side));
  }

  lemma SplitAround(queue: map<nat, seq<nat>>, ring: seq<nat>, k: nat)
    requires k <= |ring|
    ensures Slots(queue, ring) == Slots(queue, ring[..k]) + Slots(queue, ring[k..])
  {
    assert ring == ring[..k] + ring[k..];
    SlotsSplit(queue, ring[..k], ring[k..]);
  }

  // ----- a new order at an existing level -----

  /** Queueing at level `k` puts the slot behind the first `k + 1` levels. */
  lemma AppendSlots(g: Shape, side: Side, k: nat, l: nat, n: nat)
    requires k < |g.On(side)| && g.On(side)[k] == l && Distinct(g.On(side)) && RingsIn(g)
    ensures Slots(AppendShape(g, l, n).queue, g.On(side))
         == Slots(g.queue, g.On(side)[..k + 1]) + [n] + Slots(g.queue, g.On(side)[k + 1..])
  {
    hide Slots;
    var ring, queue' := g.On(side), AppendShape(g, l, n).queue;
    var a, b := ring[..k], ring[k + 1..];
    SplitAround(queue', ring, k + 1);
    assert ring[..k + 1] == a + [l];
    SlotsSplit(queue', a, [l]);
    SlotsOne(queue', l);
    SlotsSplit(g.queue, a, [l]);
    SlotsOne(g.queue, l);
    OtherSlots(g.queue, queue', a, l);
    OtherSlots(g.queue, queue', b, l);
  }

  /** Queueing at a level leaves a side that does not have the level alone. */
  lemma AppendElsewhere(g: Shape, side: Side, l: nat, n: nat)
    requires RingsIn(g) && l in g.queue && l !in g.On(side)
    ensures Slots(AppendShape(g, l, n).queue, g.On(side)) == Slots(g.queue, g.On(side))
  {
    assert forall i :: 0 <= i < |g.On(side)| ==> g.On(side)[i] in g.On(side);
    SlotsFrame(g.queue, AppendShape(g, l, n).queue, g.On(side));
  }

  /** A level is in the ring of its own side only. */
  lemma LevelPosition<K>(h: Heap<K>, g: Shape, l: nat) returns (k: nat)
    requires WellFormed(h, g) && l in g.queue
    ensures l < |h.levels|
    ensures var side := h.levels[l].data.side;
            IsTradeSide(side) && k < |g.On(side)| && g.On(side)[k] == l && l !in g.On(Opposite(side))
  {
    hide WellFormed, QueuesOk, QueueOk, AtOk, HomeOk, IndexOk;
    Parts(h, g);
    SidesApart(h.levels, g.bids, g.asks, BUY);
    SidesApart(h.levels, g.asks, g.bids, SELL);
    if l in g.bids {
      k :| 0 <= k < |g.bids| && g.bids[k] == l;
    } else {
      k :| 0 <= k < |g.asks| && g.asks[k] == l;
    }
  }

  /** The prices around level `k` as seen from an order that joins it. */
  lemma LevelPrices(levels: seq<Node<LevelData>>, ring: seq<nat>, side: Side, k: nat)
    requires LadderOk(levels, ring, side) && k < |ring|
    ensures forall i :: 0 <= i < k + 1 ==> !Better(side, levels[ring[k]].data.price, levels[ring[i]].data.price)
    ensures forall i :: k + 1 <= i < |ring| ==> Better(side, levels[ring[k]].data.price, levels[ring[i]].data.price)
  {
  }

  lemma OtherSideValues<K>(h: Heap<K>, g: Shape, h': Heap<K>, g': Shape, side: Side, n: nat)
    requires WellFormed(h, g) && WellFormed(h', g') && |h'.orders| == |h.orders|
    requires Slots(g'.queue, g'.On(side)) == Slots(g.queue, g.On(side))
    requires forall i :: 0 <= i < |h.orders| && i != n ==> h'.orders[i].data == h.orders[i].data
    requires n !in Slots(g.queue, g.On(side))
    ensures Flat(h', g', side) == Flat(h, g, side)
  {
    hide WellFormed, Slots;
    SideWithin(h, g, side);
    SideWithin(h', g', side);
    var slots := Slots(g.queue, g.On(side));
    assert forall i :: 0 <= i < |slots| ==> slots[i] in slots;
    ValuesFrame(h.orders, h'.orders, slots);
  }

  /** The slots around the place where an order joins level `k`. */
  lemma AppendAround<K>(h: Heap<K>, g: Shape, l: nat, n: nat, o: Order<K>, k: nat)
          returns (front: seq<nat>, back: seq<nat>)
    requires CanAppend(h, g, l, n, o) && IsTradeSide(o.side) && k < |g.On(o.side)| && g.On(o.side)[k] == l
    ensures Within(h.orders, front) && Within(h.orders, back) && n !in front && n !in back
    ensures Slots(g.queue, g.On(o.side)) == front + back
    ensures Slots(AppendShape(g, l, n).queue, g.On(o.side)) == front + [n] + back
    ensures forall i :: 0 <= i < |front| ==> !Better(o.side, o.price, h.orders[front[i]].data.price)
    ensures forall i :: 0 <= i < |back| ==> Better(o.side, o.price, h.orders[back[i]].data.price)
  {
    hide WellFormed, LadderOk, QueuesOk, QueueOk, AtOk, HomeOk, IndexOk, LevelsOk, Slots;
    var ring := g.On(o.side);
    Parts(h, g);
    QueueParts(h, g, l);
    AppendSlots(g, o.side, k, l, n);
    LevelPrices(h.levels, ring, o.side, k);
    FrontPrices(h, g, o.side, k + 1, o.price);
    BackPrices(h, g, o.side, k + 1, o.price);
    NotInSlots(h, g, o.side, n);
    SplitAround(g.queue, ring, k + 1);
    front, back := Slots(g.queue, ring[..k + 1]), Slots(g.queue, ring[k + 1..]);
  }

  lemma AppendFlatOwn<K>(h: Heap<K>, g: Shape, l: nat, n: nat, o: Order<K>, k: nat)
    requires CanAppend(h, g, l, n, o) && WellFormed(AppendHeap(h, g, l, n, o), AppendShape(g, l, n))
    requires IsTradeSide(o.side) && k < |g.On(o.side)| && g.On(o.side)[k] == l
    ensures Flat(AppendHeap(h, g, l, n, o), AppendShape(g, l, n), o.side) == Enqueue(Flat(h, g, o.side), o)
  {
    hide WellFormed, LadderOk, QueuesOk, QueueOk, AtOk, HomeOk, IndexOk, LevelsOk, Slots, Enqueue, AppendedOrders;
    hide Better;
    var front, back := AppendAround(h, g, l, n, o, k);
    Parts(h, g);
    QueueParts(h, g, l);
    NotQueued(g, n);
    AppendData(h.orders, g.queue[l], n, o);
    EnqueueValues(h.orders, AppendedOrders(h.orders, g.queue[l], n, o), front, n, back);
  }

  /** An order that joins its level goes where `Enqueue` puts it. */
  lemma AppendFlat<K>(h: Heap<K>, g: Shape, l: nat, n: nat, o: Order<K>)
    requires CanAppend(h, g, l, n, o)
    ensures var h', g' := AppendHeap(h, g, l, n, o), AppendShape(g, l, n);
            && IsTradeSide(o.side) && WellFormed(h', g')
            && Flat(h', g', o.side) == Enqueue(Flat(h, g, o.side), o)
            && Flat(h', g', Opposite(o.side)) == Flat(h, g, Opposite(o.side))
  {
    hide WellFormed, LadderOk, QueuesOk, QueueOk, AtOk, HomeOk, IndexOk, Slots, Enqueue, AppendedOrders;
    AppendKeeps(h, g, l, n, o);
    var k := LevelPosition(h, g, l);
    AppendFlatOwn(h, g, l, n, o, k);
    Parts(h, g);
    QueueParts(h, g, l);
    NotQueued(g, n);
    AppendData(h.orders, g.queue[l], n, o);
    AppendElsewhere(g, Opposite(o.side), l, n);
    NotInSlots(h, g, Opposite(o.side), n);
    OtherSideValues(h, g, AppendHeap(h, g, l, n, o), AppendShape(g, l, n), Opposite(o.side), n);
  }

  // ----- a new order at a new level -----

  lemma LevelSlots(g: Shape, side: Side, k: nat, l: nat, n: nat)
    requires IsTradeSide(side) && k <= |g.On(side)| && RingsIn(g) && l !in g.queue
    ensures var g' := LevelShape(g, side, k, l, n);
            && Slots(g'.queue, g'.On(side)) == Slots(g.queue, g.On(side)[..k]) + [n] + Slots(g.queue, g.On(side)[k..])
            && Slots(g'.queue, g'.On(Opposite(side))) == Slots(g.queue, g.On(Opposite(side)))
  {
    var g', ring := LevelShape(g, side, k, l, n), g.On(side);
    SlotsSplit(g'.queue, ring[..k] + [l], ring[k..]);
    SlotsSplit(g'.queue, ring[..k], [l]);
    SlotsOne(g'.queue, l);
    assert forall i :: 0 <= i < |ring[k..]| ==> ring[k..][i] == ring[k + i];
    SlotsFrame(g.queue, g'.queue, ring[..k]);
    SlotsFrame(g.queue, g'.queue, ring[k..]);
    SlotsFrame(g.queue, g'.queue, g.On(Opposite(side)));
  }

  lemma LevelFlatOwn<K>(h: Heap<K>, g: Shape, k: nat, l: nat, n: nat, o: Order<K>)
    requires CanLevel(h, g, k, l, n, o) && WellFormed(LevelHeap(h, g, k, l, n, o), LevelShape(g, o.side, k, l, n))
    ensures Flat(LevelHeap(h, g, k, l, n, o), LevelShape(g, o.side, k, l, n), o.side) == Enqueue(Flat(h, g, o.side), o)
  {
    hide WellFormed, LadderOk, QueuesOk, QueueOk, AtOk, HomeOk, IndexOk, Slots, Enqueue;
    var ring := g.On(o.side);
    Parts(h, g);
    LevelSlots(g, o.side, k, l, n);
    assert forall i :: 0 <= i < k ==> !Better(o.side, o.price, h.levels[ring[i]].data.price);
    FrontPrices(h, g, o.side, k, o.price);
    BackPrices(h, g, o.side, k, o.price);
    NotInSlots(h, g, o.side, n);
    SplitAround(g.queue, ring, k);
    EnqueueValues(h.orders, Self(h.orders[n := Node(o, NULL, NULL)], n),
                  Slots(g.queue, ring[..k]), n, Slots(g.queue, ring[k..]));
  }

  lemma LevelFlat<K>(h: Heap<K>, g: Shape, k: nat, l: nat, n: nat, o: Order<K>)
    requires CanLevel(h, g, k, l, n, o)
    ensures var h', g' := LevelHeap(h, g, k, l, n, o), LevelShape(g, o.side, k, l, n);
            && WellFormed(h', g')
            && Flat(h', g', o.side) == Enqueue(Flat(h, g, o.side), o)
            && Flat(h', g', Opposite(o.side)) == Flat(h, g, Opposite(o.side))
  {
    hide WellFormed, LadderOk, QueuesOk, QueueOk, AtOk, HomeOk, IndexOk, Slots, Enqueue;
    LevelKeeps(h, g, k, l, n, o);
    LevelFlatOwn(h, g, k, l, n, o);
    Parts(h, g);
    LevelSlots(g, o.side, k, l, n);
    NotInSlots(h, g, Opposite(o.side), n);
    OtherSideValues(h, g, LevelHeap(h, g, k, l, n, o), LevelShape(g, o.side, k, l, n), Opposite(o.side), n);
  }

  // ----- an order leaves -----

  /** Position `i` of level `k` of a side. */
  ghost predicate Located<K>(h: Heap<K>, g: Shape, side: Side, k: nat, i: nat) {
    && WellFormed(h, g) && IsTradeSide(side)
    && k < |g.On(side)| && g.On(side)[k] in g.queue && i < |g.queue[g.On(side)[k]]|
  }

  /** The order slot there. */
  function SlotOf(g: Shape, side: Side, k: nat, i: nat): nat
    requires k < |g.On(side)| && g.On(side)[k] in g.queue && i < |g.queue[g.On(side)[k]]|
  {
    g.queue[g.On(side)[k]][i]
  }

  /** The slots that trade before and after it. */
  function FrontSlots(g: Shape, side: Side, k: nat, i: nat): seq<nat>
    requires k < |g.On(side)| && g.On(side)[k] in g.queue && i < |g.queue[g.On(side)[k]]|
  {
    Slots(g.queue, g.On(side)[..k]) + g.queue[g.On(side)[k]][..i]
  }

  function BackSlots(g: Shape, side: Side, k: nat, i: nat): seq<nat>
    requires k < |g.On(side)| && g.On(side)[k] in g.queue && i < |g.queue[g.On(side)[k]]|
  {
    g.queue[g.On(side)[k]][i + 1..] + Slots(g.queue, g.On(side)[k + 1..])
  }

  /** Two queued orders have different names. */
  lemma NamesApart<K>(h: Heap<K>, g: Shape, s: nat, x: nat)
    requires IndexOk(h, g) && s in g.home && x in g.home && s != x
    ensures s < |h.orders| && x < |h.orders| && h.orders[s].data.key != h.orders[x].data.key
  {
  }

  lemma SlotsAround(g: Shape, side: Side, k: nat, i: nat)
    requires k < |g.On(side)| && g.On(side)[k] in g.queue && i < |g.queue[g.On(side)[k]]|
    ensures Slots(g.queue, g.On(side)) == FrontSlots(g, side, k, i) + [SlotOf(g, side, k, i)] + BackSlots(g, side, k, i)
  {
    var ring, l := g.On(side), g.On(side)[k];
    SplitAround(g.queue, ring, k);
    assert ring[k..] == [l] + ring[k + 1..];
    SlotsSplit(g.queue, [l], ring[k + 1..]);
    SlotsOne(g.queue, l);
    SplitAt(g.queue[l], i);
  }

  /** A slot of other levels, or of other positions of the same queue. */
  lemma FrontApart(g: Shape, side: Side, k: nat, i: nat)
    requires HomeOk(g) && RingsIn(g) && Distinct(g.On(side)) && k < |g.On(side)| && g.On(side)[k] in g.queue
    requires i < |g.queue[g.On(side)[k]]| && Distinct(g.queue[g.On(side)[k]])
    ensures forall x :: x in FrontSlots(g, side, k, i) ==> x in g.home && x != SlotOf(g, side, k, i)
  {
    var ring, l := g.On(side), g.On(side)[k];
    var a, q := Slots(g.queue, ring[..k]), g.queue[l];
    SlotsAtHome(g, ring[..k]);
    assert g.home[q[i]] == l && l !in ring[..k];
    forall x | x in a + q[..i]
      ensures x in g.home && x != q[i]
    {
      if x in q[..i] {
        var j :| 0 <= j < i && q[j] == x;
      }
    }
  }

  lemma BackApart(g: Shape, side: Side, k: nat, i: nat)
    requires HomeOk(g) && RingsIn(g) && Distinct(g.On(side)) && k < |g.On(side)| && g.On(side)[k] in g.queue
    requires i < |g.queue[g.On(side)[k]]| && Distinct(g.queue[g.On(side)[k]])
    ensures forall x :: x in BackSlots(g, side, k, i) ==> x in g.home && x != SlotOf(g, side, k, i)
  {
    var ring, l := g.On(side), g.On(side)[k];
    var b, q := Slots(g.queue, ring[k + 1..]), g.queue[l];
    SlotsAtHome(g, ring[k + 1..]);
    assert g.home[q[i]] == l && l !in ring[k + 1..];
    forall x | x in q[i + 1..] + b
      ensures x in g.home && x != q[i]
    {
      if x in q[i + 1..] {
        var j :| i < j < |q| && q[j] == x;
      }
    }
  }

  lemma AroundNames<K>(h: Heap<K>, g: Shape, side: Side, k: nat, i: nat)
    requires Located(h, g, side, k, i)
    ensures var s, front, back := SlotOf(g, side, k, i), FrontSlots(g, side, k, i), BackSlots(g, side, k, i);
            && s < |h.orders| && Within(h.orders, front) && Within(h.orders, back) && s !in front && s !in back
            && forall j :: 0 <= j < |front| ==> h.orders[front[j]].data.key != h.orders[s].data.key
  {
    hide WellFormed, LadderOk, QueuesOk, QueueOk, AtOk, HomeOk, IndexOk, Slots;
    Parts(h, g);
    QueueParts(h, g, g.On(side)[k]);
    FrontApart(g, side, k, i);
    BackApart(g, side, k, i);
    var s, front, back := SlotOf(g, side, k, i), FrontSlots(g, side, k, i), BackSlots(g, side, k, i);
    forall j | 0 <= j < |front|
      ensures front[j] < |h.orders| && h.orders[front[j]].data.key != h.orders[s].data.key
    {
      assert front[j] in front;
      NamesApart(h, g, s, front[j]);
    }
    forall j | 0 <= j < |back|
      ensures back[j] < |h.orders|
    {
      assert back[j] in back;
      NamesApart(h, g, s, back[j]);
    }
  }

  /** What the side of a removed order lists afterwards. */
  lemma RemovedValues<K>(h: Heap<K>, g: Shape, orders': seq<Node<Order<K>>>, side: Side, k: nat, i: nat)
    requires Located(h, g, side, k, i)
    requires |orders'| == |h.orders| && forall j :: 0 <= j < |orders'| ==> orders'[j].data == h.orders[j].data
    ensures var s, slots := SlotOf(g, side, k, i), FrontSlots(g, side, k, i) + BackSlots(g, side, k, i);
            && s < |h.orders| && Within(orders', slots)
            && Values(orders', slots) == Drop(Flat(h, g, side), h.orders[s].data.key)
  {
    hide WellFormed, Slots, Drop;
    AroundNames(h, g, side, k, i);
    SlotsAround(g, side, k, i);
    DropValues(h.orders, orders', FrontSlots(g, side, k, i), SlotOf(g, side, k, i), BackSlots(g, side, k, i));
  }

  lemma LeaveSlots(g: Shape, side: Side, k: nat, i: nat)
    requires k < |g.On(side)| && g.On(side)[k] in g.queue && i < |g.queue[g.On(side)[k]]|
    requires Distinct(g.On(side)) && RingsIn(g)
    ensures Slots(LeaveShape(g, SlotOf(g, side, k, i), g.On(side)[k], i).queue, g.On(side))
         == FrontSlots(g, side, k, i) + BackSlots(g, side, k, i)
  {
    hide Slots;
    var ring, l := g.On(side), g.On(side)[k];
    var queue' := LeaveShape(g, SlotOf(g, side, k, i), l, i).queue;
    var a, b := ring[..k], ring[k + 1..];
    SplitAround(queue', ring, k);
    assert ring[k..] == [l] + b;
    SlotsSplit(queue', [l], b);
    SlotsOne(queue', l);
    OtherSlots(g.queue, queue', a, l);
    OtherSlots(g.queue, queue', b, l);
  }

  lemma OtherSlots(queue: map<nat, seq<nat>>, queue': map<nat, seq<nat>>, stretch: seq<nat>, l: nat)
    requires l !in stretch
    requires forall x :: x in stretch ==> x in queue
    requires forall x :: x in queue && x != l ==> x in queue' && queue'[x] == queue[x]
    ensures Slots(queue, stretch) == Slots(queue', stretch)
  {
    assert forall j :: 0 <= j < |stretch| ==> stretch[j] in stretch;
    SlotsFrame(queue, queue', stretch);
  }

  lemma UnlevelSlots(g: Shape, side: Side, k: nat, s: nat)
    requires IsTradeSide(side) && k < |g.On(side)| && Distinct(g.On(side)) && RingsIn(g)
    ensures var g' := UnlevelShape(g, side, k, s);
            Slots(g'.queue, g'.On(side)) == Slots(g.queue, g.On(side)[..k]) + Slots(g.queue, g.On(side)[k + 1..])
  {
    var ring, queue' := g.On(side), UnlevelShape(g, side, k, s).queue;
    SlotsSplit(queue', ring[..k], ring[k + 1..]);
    OtherSlots(g.queue, queue', ring[..k], ring[k]);
    OtherSlots(g.queue, queue', ring[k + 1..], ring[k]);
  }

  /** Two order stores that carry the same orders, perhaps linked differently. */
  ghost predicate SameData<K>(a: seq<Node<Order<K>>>, b: seq<Node<Order<K>>>) {
    |a| == |b| && forall i :: 0 <= i < |a| ==> a[i].data == b[i].data
  }

  lemma SameValues<K>(h: Heap<K>, g: Shape, h': Heap<K>, g': Shape, side: Side)
    requires WellFormed(h, g) && WellFormed(h', g') && SameData(h.orders, h'.orders)
    requires Slots(g'.queue, g'.On(side)) == Slots(g.queue, g.On(side))
    ensures Flat(h', g', side) == Flat(h, g, side)
  {
    hide WellFormed, Slots;
    SideWithin(h, g, side);
    SideWithin(h', g', side);
    ValuesFrame(h.orders, h'.orders, Slots(g.queue, g.On(side)));
  }

  lemma LeaveData<K>(h: Heap<K>, g: Shape, s: nat, l: nat, i: nat)
    requires StandsAt(h, g, s, l, i)
    ensures SameData(h.orders, LeaveHeap(h, g, s, l, i).orders)
  {
    hide WellFormed, LadderOk, QueuesOk, QueueOk, AtOk, HomeOk, IndexOk;
    QueueParts(h, g, l);
    UnlinkFrame(h.orders, s, Before(g.queue[l], i), After(g.queue[l], i));
  }

  lemma LeaveFlatOwn<K>(h: Heap<K>, g: Shape, side: Side, k: nat, i: nat)
    requires Located(h, g, side, k, i) && 1 < |g.queue[g.On(side)[k]]|
    requires StandsAt(h, g, SlotOf(g, side, k, i), g.On(side)[k], i)
    requires WellFormed(LeaveHeap(h, g, SlotOf(g, side, k, i), g.On(side)[k], i),
        LeaveShape(g, SlotOf(g, side, k, i), g.On(side)[k], i))
    ensures var s, l := SlotOf(g, side, k, i), g.On(side)[k];
            Flat(LeaveHeap(h, g, s, l, i), LeaveShape(g, s, l, i), side) == Drop(Flat(h, g, side), h.orders[s].data.key)
  {
    hide WellFormed, LadderOk, QueuesOk, QueueOk, AtOk, HomeOk, IndexOk, Slots, Drop;
    var s, l := SlotOf(g, side, k, i), g.On(side)[k];
    Parts(h, g);
    LeaveSlots(g, side, k, i);
    LeaveData(h, g, s, l, i);
    RemovedValues(h, g, LeaveHeap(h, g, s, l, i).orders, side, k, i);
  }

  ghost predicate SameElsewhere(g: Shape, g': Shape, l: nat) {
    forall x :: x in g.queue && x != l ==> x in g'.queue && g'.queue[x] == g.queue[x]
  }

  /** A side is unchanged when only a level of the other side, its links and its queue change. */
  lemma OtherLevelsSame<K>(h: Heap<K>, g: Shape, h': Heap<K>, g': Shape, side: Side, l: nat)
    requires WellFormed(h, g) && WellFormed(h', g') && SameData(h.orders, h'.orders)
    requires g'.On(side) == g.On(side) && l !in g.On(side) && SameElsewhere(g, g', l)
    ensures Flat(h', g', side) == Flat(h, g, side)
  {
    hide WellFormed, LadderOk, QueuesOk, QueueOk, AtOk, HomeOk, IndexOk, Slots;
    Parts(h, g);
    OtherSlots(g.queue, g'.queue, g.On(side), l);
    SameValues(h, g, h', g', side);
  }

  lemma LeaveElsewhere(g: Shape, s: nat, l: nat, i: nat)
    requires l in g.queue && i < |g.queue[l]|
    ensures SameElsewhere(g, LeaveShape(g, s, l, i), l)
  {
  }

  /** An order that leaves its level is dropped from its side and nothing else changes. */
  lemma LeaveFlat<K>(h: Heap<K>, g: Shape, s: nat, l: nat, i: nat)
    requires StandsAt(h, g, s, l, i) && 1 < |g.queue[l]|
    ensures var h', g', side := LeaveHeap(h, g, s, l, i), LeaveShape(g, s, l, i), h.levels[l].data.side;
            && IsTradeSide(side) && WellFormed(h', g')
            && Flat(h', g', side) == Drop(Flat(h, g, side), h.orders[s].data.key)
            && Flat(h', g', Opposite(side)) == Flat(h, g, Opposite(side))
  {
    hide WellFormed, LadderOk, QueuesOk, QueueOk, AtOk, HomeOk, IndexOk, Slots, Drop, SameData, SameElsewhere;
    LeaveKeeps(h, g, s, l, i);
    var k := LevelPosition(h, g, l);
    var side := h.levels[l].data.side;
    LeaveFlatOwn(h, g, side, k, i);
    LeaveData(h, g, s, l, i);
    LeaveElsewhere(g, s, l, i);
    OtherLevelsSame(h, g, LeaveHeap(h, g, s, l, i), LeaveShape(g, s, l, i), Opposite(side), l);
  }

  lemma UnlevelFlatOwn<K>(h: Heap<K>, g: Shape, side: Side, k: nat, s: nat)
    requires LastOrder(h, g, side, k, s) && WellFormed(UnlevelHeap(h, g, side, k, s), UnlevelShape(g, side, k, s))
    ensures Flat(UnlevelHeap(h, g, side, k, s), UnlevelShape(g, side, k, s), side)
         == Drop(Flat(h, g, side), h.orders[s].data.key)
  {
    hide WellFormed, LadderOk, QueuesOk, QueueOk, AtOk, HomeOk, IndexOk, Slots, Drop;
    Parts(h, g);
    UnlevelSlots(g, side, k, s);
    RemovedValues(h, g, h.orders, side, k, 0);
    var a, b := Slots(g.queue, g.On(side)[..k]), Slots(g.queue, g.On(side)[k + 1..]);
    assert FrontSlots(g, side, k, 0) == a && BackSlots(g, side, k, 0) == b;
  }

  lemma UnlevelFlatOther<K>(h: Heap<K>, g: Shape, side: Side, k: nat, s: nat)
    requires LastOrder(h, g, side, k, s) && WellFormed(UnlevelHeap(h, g, side, k, s), UnlevelShape(g, side, k, s))
    ensures Flat(UnlevelHeap(h, g, side, k, s), UnlevelShape(g, side, k, s), Opposite(side))
        == Flat(h, g, Opposite(side))
  {
    hide WellFormed, LadderOk, QueuesOk, QueueOk, AtOk, HomeOk, IndexOk, LevelsOk, Slots, Distinct;
    var other, l := g.On(Opposite(side)), g.On(side)[k];
    Parts(h, g);
    SidesApart(h.levels, g.On(side), other, side);
    assert l !in other;
    OtherSlots(g.queue, UnlevelShape(g, side, k, s).queue, other, l);
    SameValues(h, g, UnlevelHeap(h, g, side, k, s), UnlevelShape(g, side, k, s), Opposite(side));
  }

  lemma UnlevelFlat<K>(h: Heap<K>, g: Shape, side: Side, k: nat, s: nat)
    requires LastOrder(h, g, side, k, s)
    ensures var h', g' := UnlevelHeap(h, g, side, k, s), UnlevelShape(g, side, k, s);
            && WellFormed(h', g')
            && Flat(h', g', side) == Drop(Flat(h, g, side), h.orders[s].data.key)
            && Flat(h', g', Opposite(side)) == Flat(h, g, Opposite(side))
  {
    hide WellFormed, LadderOk, QueuesOk, QueueOk, AtOk, HomeOk, IndexOk, Slots, Drop;
    UnlevelKeeps(h, g, side, k, s);
    UnlevelFlatOwn(h, g, side, k, s);
    UnlevelFlatOther(h, g, side, k, s);
  }

  // ----- an order changes its quantity -----

  lemma ResizeFlatOwn<K>(h: Heap<K>, g: Shape, side: Side, k: nat, i: nat, qty: nat)
    requires Located(h, g, side, k, i) && SlotOf(g, side, k, i) < |h.orders|
    requires WellFormed(ResizeHeap(h, SlotOf(g, side, k, i), qty), g)
    ensures var s := SlotOf(g, side, k, i);
            Flat(ResizeHeap(h, s, qty), g, side) == Resize(Flat(h, g, side), h.orders[s].data.key, qty)
  {
    hide WellFormed, Slots, Resize;
    var s := SlotOf(g, side, k, i);
    AroundNames(h, g, side, k, i);
    SlotsAround(g, side, k, i);
    ResizeValues(h.orders, ResizeHeap(h, s, qty).orders, FrontSlots(g, side, k, i), s, BackSlots(g, side, k, i), qty);
  }

  lemma ResizeFlatOther<K>(h: Heap<K>, g: Shape, s: nat, l: nat, side: Side, qty: nat)
    requires WellFormed(h, g) && s in g.home && g.home[s] == l && l !in g.On(side) && s < |h.orders|
    requires WellFormed(ResizeHeap(h, s, qty), g)
    ensures Flat(ResizeHeap(h, s, qty), g, side) == Flat(h, g, side)
  {
    hide WellFormed, Slots;
    ResizeElsewhere(h, g, s, l, side);
    OtherSideValues(h, g, ResizeHeap(h, s, qty), g, side, s);
  }

  /** Changing one order's quantity changes that order in the list and nothing else. */
  lemma ResizeFlat<K>(h: Heap<K>, g: Shape, s: nat, l: nat, i: nat, qty: nat)
    requires StandsAt(h, g, s, l, i)
    ensures var h', side := ResizeHeap(h, s, qty), h.levels[l].data.side;
            && IsTradeSide(side) && WellFormed(h', g)
            && Flat(h', g, side) == Resize(Flat(h, g, side), h.orders[s].data.key, qty)
            && Flat(h', g, Opposite(side)) == Flat(h, g, Opposite(side))
  {
    hide WellFormed, Slots, Resize;
    ResizeKeeps(h, g, s, qty);
    var k := LevelPosition(h, g, l);
    var side := h.levels[l].data.side;
    ResizeFlatOwn(h, g, side, k, i, qty);
    ResizeFlatOther(h, g, s, l, Opposite(side), qty);
  }

  lemma ResizeElsewhere<K>(h: Heap<K>, g: Shape, s: nat, l: nat, side: Side)
    requires WellFormed(h, g) && s in g.home && g.home[s] == l && l !in g.On(side)
    ensures s !in Slots(g.queue, g.On(side))
  {
    hide WellFormed, LadderOk, QueuesOk, QueueOk, AtOk, HomeOk, IndexOk;
    Parts(h, g);
    SlotsAtHome(g, g.On(side));
  }

  // ----- reading the front and the back -----

  /** The best level's first order is the head of the side. */
  lemma HeadOfSide<K>(h: Heap<K>, g: Shape, side: Side)
    requires WellFormed(h, g) && IsTradeSide(side)
    ensures g.On(side) == [] <==> Flat(h, g, side) == []
    ensures g.On(side) != [] ==>
              var l := g.On(side)[0];
              && l < |h.levels| && 0 <= h.levels[l].data.first < |h.orders|
              && l in g.queue && g.queue[l] != [] && h.levels[l].data.first == g.queue[l][0]
              && h.orders[h.levels[l].data.first].data == Flat(h, g, side)[0]
  {
    hide WellFormed, LadderOk, QueuesOk, QueueOk, AtOk, HomeOk, IndexOk;
    Parts(h, g);
    SideWithin(h, g, side);
    if g.On(side) != [] {
      var l := g.On(side)[0];
      QueueParts(h, g, l);
      assert Slots(g.queue, g.On(side))[0] == g.queue[l][0];
    }
  }

  lemma {:induction false} PrioritySkips<K>(a: seq<Order<K>>, b: seq<Order<K>>, price: int)
    requires forall i :: 0 <= i < |b| ==> b[i].price != price
    ensures NextPriority(a + b, price) == NextPriority(a, price)
    decreases |b|
  {
    if b == [] {
      assert a + b == a;
    } else {
      var n := |b| - 1;
      assert (a + b)[..|a + b| - 1] == a + b[..n];
      PrioritySkips(a, b[..n], price);
    }
  }

  lemma PriorityOfLast<K>(s: seq<Order<K>>, price: int)
    requires s != [] && s[|s| - 1].price == price
    ensures NextPriority(s, price) == s[|s| - 1].priority + 1
  {
  }

  lemma LevelsOrders<K>(h: Heap<K>, g: Shape, l: nat)
    requires WellFormed(h, g) && l in g.queue
    ensures l < |h.levels| && forall i :: 0 <= i < |g.queue[l]| ==>
              g.queue[l][i] < |h.orders| && BelongsTo(h.levels[l].data, h.orders[g.queue[l][i]].data)
  {
    assert QueueOk(h.levels[l].data, h.orders, g.queue[l]);
  }

  /** `getNextPriority` reads the back of the level's queue. */
  lemma PriorityOfLevel<K>(h: Heap<K>, g: Shape, side: Side, k: nat)
    requires WellFormed(h, g) && IsTradeSide(side) && k < |g.On(side)|
    ensures var l := g.On(side)[k];
            && l in g.queue && g.queue[l] != [] && g.queue[l][|g.queue[l]| - 1] < |h.orders|
            && NextPriority(Flat(h, g, side), h.levels[l].data.price)
            == h.orders[g.queue[l][|g.queue[l]| - 1]].data.priority + 1
  {
    hide WellFormed, LadderOk, QueuesOk, QueueOk, AtOk, HomeOk, IndexOk, Slots, NextPriority, LevelsOk, Distinct;
    hide Values, InStore, RingsIn;
    var ring, l := g.On(side), g.On(side)[k];
    Parts(h, g);
    QueueParts(h, g, l);
    var q, price := g.queue[l], h.levels[l].data.price;
    SideWithin(h, g, side);
    LevelPrices(h.levels, ring, side, k);
    FrontPrices(h, g, side, k + 1, price);
    BackPrices(h, g, side, k + 1, price);
    SplitAround(g.queue, ring, k + 1);
    var front, back := Slots(g.queue, ring[..k + 1]), Slots(g.queue, ring[k + 1..]);
    ValuesConcat(h.orders, front, back);
    PrioritySkips(Values(h.orders, front), Values(h.orders, back), price);
    LastOfFront(g, ring, k);
    LevelsOrders(h, g, l);
    PriorityOfLast(Values(h.orders, front), price);
  }

  lemma LastOfFront(g: Shape, ring: seq<nat>, k: nat)
    requires k < |ring| && ring[k] in g.queue && g.queue[ring[k]] != []
    ensures var front, q := Slots(g.queue, ring[..k + 1]), g.queue[ring[k]];
            front != [] && front[|front| - 1] == q[|q| - 1]
  {
    assert ring[..k + 1] == ring[..k] + [ring[k]];
    SlotsSplit(g.queue, ring[..k], [ring[k]]);
    SlotsOne(g.queue, ring[k]);
  }

  lemma {:induction false} PriorityAbsent<K>(s: seq<Order<K>>, price: int)
    requires forall i :: 0 <= i < |s| ==> s[i].price != price
    ensures NextPriority(s, price) == 1
  {
    if s != [] {
      PriorityAbsent(s[..|s| - 1], price);
    }
  }

  lemma PriorityOfNewLevel<K>(h: Heap<K>, g: Shape, side: Side, price: int)
    requires WellFormed(h, g) && IsTradeSide(side) && h.at[PriceToIndex(price)] == NULL
    ensures NextPriority(Flat(h, g, side), price) == 1
  {
    hide WellFormed, LadderOk, QueuesOk, QueueOk, HomeOk, IndexOk, Slots, NextPriority;
    var slots := Slots(g.queue, g.On(side));
    Parts(h, g);
    SideWithin(h, g, side);
    StretchOf(h, g, g.On(side));
    forall i | 0 <= i < |slots|
      ensures h.orders[slots[i]].data.price != price
    {
      AtHome(h, g, slots[i]);
    }
    PriorityAbsent(Flat(h, g, side), price);
  }
}
