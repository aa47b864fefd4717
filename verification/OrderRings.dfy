/** The pointer structure shared by the exchange's order book and the client's copy of it: pools of
    orders and price levels, rings through them, and the two indexes. The two sources repeat this
    code with different field names; here it exists once, for any kind of order name. */
module OrderRings {
  import opened Common
  import opened Ladder
  import opened PriceSlots
  import opened Rings
  import opened Pool
  import opened BookHeap
  import opened HeapOps
  import opened HeapFlat
  import opened TopOfBook

  function HeadOf(r: seq<nat>): int {
    if r == [] then NULL else r[0]
  }

  /** Blocks are handed out exactly for the levels and orders in use. */
  ghost predicate Accounted(g: Shape, levelFree: seq<bool>, orderFree: seq<bool>) {
    g.queue.Keys == InUse(levelFree) && g.home.Keys == InUse(orderFree)
  }

  lemma TakeAccounted(flags: seq<bool>, n: nat)
    requires n < |flags| && flags[n]
    ensures InUse(flags[n := false]) == InUse(flags) + {n} && n !in InUse(flags)
    ensures flags[n := false][n := true] == flags
  {
  }

  lemma GiveAccounted(flags: seq<bool>, n: nat)
    requires n < |flags| && !flags[n]
    ensures InUse(flags[n := true]) == InUse(flags) - {n} && n in InUse(flags)
  {
  }

  /** No level of the ring has this price. */
  ghost predicate NewPrice(levels: seq<Node<LevelData>>, ring: seq<nat>, price: int)
    requires InStore(levels, ring)
  {
    forall i :: 0 <= i < |ring| ==> levels[ring[i]].data.price != price
  }

  /** `o` has a later priority than every order at its price. */
  ghost predicate LastAtPrice<K>(s: seq<Order<K>>, o: Order<K>) {
    forall i :: 0 <= i < |s| && s[i].price == o.price ==> s[i].priority < o.priority
  }

  /** No block is handed out. */
  ghost predicate Unused(flags: seq<bool>) {
    forall i :: 0 <= i < |flags| ==> flags[i]
  }

  /** The pools and their arrays are different objects. */
  ghost predicate Separate<A, B>(a: MemPool<A>, b: MemPool<B>) {
    a as object != b && a.isFree != b.isFree && a.store as object != b.store
  }

  class OrderRings<K(==)> {
    const levelPool: MemPool<Node<LevelData>>
    const orderPool: MemPool<Node<Order<K>>>
    const at: array<int>
    var bidsByPrice: int
    var asksByPrice: int
    var index: map<K, nat>
    ghost const repr: set<object>
    ghost var slots: seq<int>
    ghost var layout: Layout<K>
    ghost var bids: seq<Order<K>>
    ghost var asks: seq<Order<K>>

    ghost function Footprint(): set<object> {
      {this, levelPool, levelPool.store, levelPool.isFree, orderPool, orderPool.store, orderPool.isFree, at}
    }

    ghost function State(): Heap<K>
      reads this, levelPool, orderPool
    {
      Heap(levelPool.contents, orderPool.contents, slots, index)
    }

    /** The pools are intact, and the pools and arrays are different objects. */
    ghost predicate Memory()
      reads Footprint()
    {
      && repr == Footprint()
      && Separate(levelPool, orderPool) && levelPool.store as object != at && orderPool.store as object != at
      && levelPool.Valid() && orderPool.Valid() && slots == at[..] && |slots| == ME_MAX_PRICE_LEVELS
    }

    /** The best pointers and the free flags agree with the rings. */
    ghost predicate Sound(g: Shape)
      reads this, levelPool, orderPool
    {
      && Accounted(g, levelPool.flags, orderPool.flags)
      && bidsByPrice == HeadOf(g.bids) && asksByPrice == HeadOf(g.asks)
    }

    ghost predicate Valid()
      reads this, repr
    {
      && repr == Footprint() && Memory() && State() == layout.heap && Sound(layout.shape)
      && Shows(layout)
    }

    /** The layout is `d`, and the two sides are what it stands for. */
    ghost predicate Shows(d: Layout<K>)
      reads this
    {
      layout == d && bids == Flat(d.heap, d.shape, BUY) && asks == Flat(d.heap, d.shape, SELL)
    }

    /** One side of the book, in trading order. */
    ghost function Book(side: Side): seq<Order<K>>
      reads this
    {
      if side == BUY then bids else asks
    }

    /** Slot `n` holds a resting order. */
    ghost predicate Queued(n: nat)
      reads this
    {
      n in layout.shape.home && n < |layout.heap.orders|
    }

    /** That order. */
    ghost function At(n: nat): Order<K>
      requires Queued(n)
      reads this
    {
      layout.heap.orders[n].data
    }

    /** An empty book over two unused pools. */
    constructor (levels: MemPool<Node<LevelData>>, orders: MemPool<Node<Order<K>>>)
      requires levels.Valid() && orders.Valid() && Unused(levels.flags) && Unused(orders.flags)
      requires Separate(levels, orders)
      ensures fresh(at) && repr == {this, levels, levels.store, levels.isFree, orders, orders.store, orders.isFree, at}
      ensures Valid() && Book(BUY) == [] && Book(SELL) == [] && levelPool == levels && orderPool == orders
    {
      levelPool, orderPool := levels, orders;
      // Repair: me_order_book.cpp:11-15 leaves the pointer arrays uninitialised.
      at := new int[ME_MAX_PRICE_LEVELS](_ => NULL);
      bidsByPrice, asksByPrice, index := NULL, NULL, map[];
      repr := {this, levels, levels.store, levels.isFree, orders, orders.store, orders.isFree, at};
      new;
      hide WellFormed, Valid;
      Begin();
    }

    ghost method Begin()
      requires levelPool.Valid() && orderPool.Valid() && Unused(levelPool.flags) && Unused(orderPool.flags)
      requires Separate(levelPool, orderPool) && levelPool.store as object != at && orderPool.store as object != at
      requires at.Length == ME_MAX_PRICE_LEVELS && forall i :: 0 <= i < at.Length ==> at[i] == NULL
      requires bidsByPrice == asksByPrice == NULL && index == map[] && repr == Footprint()
      modifies this`slots, this`layout, this`bids, this`asks
      ensures Valid() && Book(BUY) == [] && Book(SELL) == []
    {
      hide WellFormed, Accounted, Flat;
      slots := at[..];
      layout := EmptyFits(State(), levelPool.flags, orderPool.flags);
      bids, asks := [], [];
    }

    function Best(side: Side): int
      reads this
    {
      if side == BUY then bidsByPrice else asksByPrice
    }

    method SetBest(side: Side, l: int)
      modifies this`bidsByPrice, this`asksByPrice
      ensures Best(side) == l && (IsTradeSide(side) ==> Best(Opposite(side)) == old(Best(Opposite(side))))
    {
      if side == BUY { bidsByPrice := l; } else { asksByPrice := l; }
    }

    // ----- price levels -----

    /** Looks round the ring of levels for the place of a price; `k` is that place. */
    method ScanLevels(best: nat, side: Side, price: int, ghost ring: seq<nat>)
      returns (target: nat, addAfter: bool, ghost k: nat)
      requires levelPool.Valid() && LadderOk(levelPool.contents, ring, side) && ring != [] && ring[0] == best
      requires IsTradeSide(side) && NewPrice(levelPool.contents, ring, price)
      ensures PriceFits(levelPool.contents, ring, side, price, k)
      ensures if addAfter then k == |ring| && target == best else k < |ring| && target == ring[k]
      ensures addAfter <==> PriceFits(levelPool.contents, ring, side, price, |ring|)
      ensures !addAfter ==> target in ring && Better(side, price, levelPool.contents[target].data.price)
    {
      // Repair: me_order_book.cpp:123, 129-130 and 135-136 test `m_price` where BUY needs
      // `m_price < target->m_price`. `AsWritten.dfy` treats the scan as it stands.
      ghost var levels := levelPool.contents;
      target := best;
      k := 0;
      addAfter := Better(side, levelPool.store[target].data.price, price);
      if addAfter {
        assert LinksAt(levels, ring, 0);
        target := levelPool.store[target].next;
        k := 1;
        addAfter := Better(side, levelPool.store[target].data.price, price);
        while addAfter && target != best
          invariant 1 <= k <= |ring| && target == (if k == |ring| then best else ring[k])
          invariant forall i :: 0 <= i < k ==> Better(side, levels[ring[i]].data.price, price)
          invariant !addAfter ==> k < |ring| && !Better(side, levels[ring[k]].data.price, price)
          decreases |ring| - k, addAfter
        {
          addAfter := Better(side, levelPool.store[target].data.price, price);
          if addAfter {
            assert LinksAt(levels, ring, k);
            target := levelPool.store[target].next;
            k := k + 1;
          }
        }
      }
      if k < |ring| {
        assert k > 0 ==> ring[0] != ring[k];
        PlaceFound(levels, ring, side, price, k);
      }
    }

    /** Links level `l` behind level `target`. */
    method LinkAfter(l: nat, target: nat, ghost next: nat)
      requires levelPool.Valid() && l < |levelPool.contents| && target < |levelPool.contents|
      requires next < |levelPool.contents| && levelPool.contents[target].next == next
      requires l != target && l != next
      modifies levelPool`contents, levelPool.store
      ensures levelPool.Valid() && levelPool.contents == Splice(old(levelPool.contents), l, target, next)
    {
      levelPool.Put(l, levelPool.store[l].(prev := target));
      levelPool.Put(levelPool.store[target].next, levelPool.store[levelPool.store[target].next].(prev := l));
      levelPool.Put(l, levelPool.store[l].(next := levelPool.store[target].next));
      levelPool.Put(target, levelPool.store[target].(next := l));
    }

    /** Links level `l` in front of level `target`.
        Repair: me_order_book.cpp:151 takes the new level's `prev` from `target->m_next_entry`, and
        the `prev` of `target` itself is never set. */
    method LinkBefore(l: nat, target: nat, ghost prev: nat)
      requires levelPool.Valid() && l < |levelPool.contents| && target < |levelPool.contents|
      requires prev < |levelPool.contents| && levelPool.contents[target].prev == prev
      requires l != target && l != prev
      modifies levelPool`contents, levelPool.store
      ensures levelPool.Valid() && levelPool.contents == Splice(old(levelPool.contents), l, prev, target)
    {
      levelPool.Put(l, levelPool.store[l].(prev := levelPool.store[target].prev));
      levelPool.Put(l, levelPool.store[l].(next := target));
      levelPool.Put(levelPool.store[target].prev, levelPool.store[levelPool.store[target].prev].(next := l));
      levelPool.Put(target, levelPool.store[target].(prev := l));
    }

    /** Links a filled level into a non-empty ring at the place its price calls for. */
    method InsertLevel(l: nat, best: nat, ghost ring: seq<nat>) returns (ghost k: nat)
      requires levelPool.Valid() && l < |levelPool.contents| && l !in ring && ring != [] && ring[0] == best
      requires IsTradeSide(levelPool.contents[l].data.side)
      requires LadderOk(levelPool.contents, ring, levelPool.contents[l].data.side)
      requires NewPrice(levelPool.contents, ring, levelPool.contents[l].data.price)
      requires Best(levelPool.contents[l].data.side) == best
      modifies this`bidsByPrice, this`asksByPrice, levelPool`contents, levelPool.store
      ensures levelPool.Valid()
      ensures var data := old(levelPool.contents)[l].data;
              && PriceFits(old(levelPool.contents), ring, data.side, data.price, k)
              && levelPool.contents == Splice(old(levelPool.contents), l, LeftOf(ring, k), RightOf(ring, k))
              && Best(data.side) == HeadOf(Inserted(ring, k, l))
              && Best(Opposite(data.side)) == old(Best(Opposite(data.side)))
    {
      hide LadderOk, PriceFits, NewPrice;
      ghost var before := levelPool.contents;
      var side, price := levelPool.store[l].data.side, levelPool.store[l].data.price;
      var target, addAfter;
      target, addAfter, k := ScanLevels(best, side, price, ring);
      LadderIsRing(before, ring, side);
      BestIsFirst(before, ring, side, price, k);
      if addAfter {
        assert LinksAt(before, ring, 0) && LinksAt(before, ring, |ring| - 1);
        if target == best {
          target := levelPool.store[best].prev;
        }
        LinkAfter(l, target, ring[0]);
      } else {
        assert LinksAt(before, ring, k);
        LinkBefore(l, target, LeftOf(ring, k));
        if Better(side, price, levelPool.store[best].data.price) {
          NoShortcut(before, ring, l);
          levelPool.Put(target, levelPool.store[target].(next :=
            if levelPool.store[target].next == best then l else levelPool.store[target].next));
          SetBest(side, l);
        }
      }
    }

    /** Links a filled level into the ring of its side and enters it in the level index. */
    method AddOrdersAtPrice(l: nat, ghost before: seq<Node<LevelData>>, ghost ring: seq<nat>) returns (ghost k: nat)
      requires Memory()
      requires l < |levelPool.contents| && |before| == |levelPool.contents|
      requires levelPool.contents == before[l := Node(levelPool.contents[l].data, NULL, NULL)]
      requires IsTradeSide(levelPool.contents[l].data.side) && l !in ring
      requires LadderOk(before, ring, levelPool.contents[l].data.side)
      requires NewPrice(before, ring, levelPool.contents[l].data.price)
      requires Best(levelPool.contents[l].data.side) == HeadOf(ring)
      modifies this`bidsByPrice, this`asksByPrice, this`slots, levelPool`contents, levelPool.store, at
      ensures Memory()
      ensures var data := old(levelPool.contents)[l].data;
              && PriceFits(before, ring, data.side, data.price, k)
              && levelPool.contents == LeveledLevels(before, ring, k, l, data)
              && slots == old(slots)[PriceToIndex(data.price) := l]
              && Best(data.side) == HeadOf(Inserted(ring, k, l))
              && Best(Opposite(data.side)) == old(Best(Opposite(data.side)))
    {
      var side, price := levelPool.store[l].data.side, levelPool.store[l].data.price;
      at[PriceToIndex(price)] := l;
      slots := slots[PriceToIndex(price) := l];
      var best := Best(side);
      if best == NULL {
        k := 0;
        SetBest(side, l);
        levelPool.Put(l, levelPool.store[l].(prev := l, next := l));
      } else {
        LadderFrame(before, levelPool.contents, ring, side);
        k := InsertLevel(l, best, ring);
        FitsFrame(before, old(levelPool.contents), ring, side, price, k);
      }
    }

    // ----- adding an order -----

    /** Enters an order in the name index; the new layout is given. */
    method Register(key: K, n: nat, ghost d: Layout<K>)
      requires Memory()
      modifies this`index, this`layout, this`bids, this`asks
      ensures Memory() && index == old(index)[key := n] && Shows(d)
    {
      hide WellFormed, Flat;
      index := index[key := n];
      layout, bids, asks := d, Flat(d.heap, d.shape, BUY), Flat(d.heap, d.shape, SELL);
    }

    /** Puts order `n` at the back of the queue of level `l`. */
    method JoinQueue(l: nat, n: nat, ghost q: seq<nat>)
      requires Memory() && l < |levelPool.contents| && n < |orderPool.contents|
      requires q != [] && Ring(orderPool.contents, q) && levelPool.contents[l].data.first == q[0] && n !in q
      modifies orderPool`contents, orderPool.store
      ensures Memory() && orderPool.contents == Splice(old(orderPool.contents), n, q[|q| - 1], q[0])
    {
      assert LinksAt(orderPool.contents, q, 0) && q[0] in q && q[|q| - 1] in q;
      var first := levelPool.store[l].data.first;
      var last := orderPool.store[first].prev;
      orderPool.Put(last, orderPool.store[last].(next := n));
      orderPool.Put(n, orderPool.store[n].(prev := orderPool.store[first].prev));
      orderPool.Put(n, orderPool.store[n].(next := first));
      orderPool.Put(first, orderPool.store[first].(prev := n));
    }

    /** The layout `d`, except that `o` sits unlinked in slot `n`. */
    ghost predicate Holding(d: Layout<K>, n: nat, o: Order<K>)
      reads Footprint()
    {
      && Memory() && Shows(d) && n < |d.heap.orders| && n !in d.shape.home && o.key !in d.heap.index
      && State() == d.heap.(orders := d.heap.orders[n := Node(o, NULL, NULL)])
      && n < |orderPool.flags| && !orderPool.flags[n]
      && Accounted(d.shape, levelPool.flags, orderPool.flags[n := true])
      && bidsByPrice == HeadOf(d.shape.bids) && asksByPrice == HeadOf(d.shape.asks)
    }

    method TakeBlock(o: Order<K>) returns (n: nat)
      requires Valid() && |InUse(orderPool.flags)| < |orderPool.flags| - 1 && o.key !in index
      modifies orderPool, orderPool.store, orderPool.isFree
      ensures Holding(old(layout), n, o) && levelPool.flags == old(levelPool.flags)
    {
      hide WellFormed, Flat;
      FreeIsUnused(layout.shape, orderPool.nextFreeIndex, levelPool.flags, orderPool.flags);
      var block := orderPool.Allocate(Node(o, NULL, NULL));
      n := block.value;
      TakeAccounted(old(orderPool.flags), n);
    }

    /** Takes a block for a level that holds only the order in slot `n`. */
    method TakeLevel(n: nat, o: Order<K>, ghost d: Layout<K>) returns (l: nat)
      requires Holding(d, n, o) && IsTradeSide(o.side)
      requires |InUse(levelPool.flags)| < |levelPool.flags| - 1
      modifies orderPool`contents, orderPool.store, levelPool, levelPool.store, levelPool.isFree
      ensures Memory() && orderPool.contents == Self(old(orderPool.contents), n)
      ensures l < |old(levelPool.flags)| && old(levelPool.flags)[l]
      ensures levelPool.flags == old(levelPool.flags)[l := false]
      ensures l < |old(levelPool.contents)|
      ensures levelPool.contents == old(levelPool.contents)[l := Node(LevelData(o.side, o.price, n), NULL, NULL)]
    {
      hide WellFormed;
      orderPool.Put(n, orderPool.store[n].(prev := n, next := n));
      var level := levelPool.Allocate(Node(LevelData(o.side, o.price, n), NULL, NULL));
      l := level.value;
    }

    /** Opens a level for the order in slot `n`. */
    method AddOpening(n: nat, o: Order<K>, ghost d: Layout<K>)
      requires Holding(d, n, o) && IsTradeSide(o.side) && slots[PriceToIndex(o.price)] == NULL
      requires |InUse(levelPool.flags)| < |levelPool.flags| - 1
      modifies this, orderPool`contents, orderPool.store, levelPool, levelPool.store, levelPool.isFree, at
      ensures Valid() && Book(o.side) == Enqueue(old(Book(o.side)), o)
      ensures Book(Opposite(o.side)) == old(Book(Opposite(o.side)))
    {
      hide WellFormed, LadderOk, QueuesOk, QueueOk, AtOk, HomeOk, IndexOk, Flat, Enqueue, LeveledLevels, Self;
      hide Accounted, PriceFits, NewPrice, LevelsOk, RingsIn, Distinct;
      ghost var h, g := d.heap, d.shape;
      ghost var levelFree := levelPool.flags;
      Parts(h, g);
      LadderInStore(h.levels, g.On(o.side), o.side);
      NoLevelAt(h, g, g.On(o.side), o.price);
      var l := TakeLevel(n, o, d);
      LevelIsNew(g, l, levelFree, orderPool.flags[n := true]);
      ghost var k := AddOrdersAtPrice(l, h.levels, g.On(o.side));
      FinishOpening(n, o, l, k, d, levelFree);
    }

    method FinishOpening(n: nat, o: Order<K>, ghost l: nat, ghost k: nat, ghost d: Layout<K>,
            ghost levelFree: seq<bool>)
      requires Memory() && Shows(d) && index == d.heap.index && CanLevel(d.heap, d.shape, k, l, n, o)
      requires var h' := LevelHeap(d.heap, d.shape, k, l, n, o);
               levelPool.contents == h'.levels && orderPool.contents == h'.orders && slots == h'.at
      requires l < |levelFree| && levelFree[l] && levelPool.flags == levelFree[l := false]
      requires n < |orderPool.flags| && !orderPool.flags[n] && Accounted(d.shape, levelFree, orderPool.flags[n := true])
      requires Best(o.side) == HeadOf(Inserted(d.shape.On(o.side), k, l))
      requires Best(Opposite(o.side)) == HeadOf(d.shape.On(Opposite(o.side)))
      modifies this`index, this`layout, this`bids, this`asks
      ensures Valid() && Book(o.side) == Enqueue(old(Book(o.side)), o)
      ensures Book(Opposite(o.side)) == old(Book(Opposite(o.side)))
    {
      hide WellFormed, Enqueue, LeveledLevels, Self, Accounted, Slots, Values;
      LevelFlat(d.heap, d.shape, k, l, n, o);
      LevelAccounted(d.shape, o.side, k, l, n, levelFree, orderPool.flags);
      Register(o.key, n, LayoutData(LevelHeap(d.heap, d.shape, k, l, n, o), LevelShape(d.shape, o.side, k, l, n)));
    }

    /** Queues the order in slot `n` at the existing level `l`. */
    method AddJoining(n: nat, o: Order<K>, l: nat, ghost d: Layout<K>)
      requires Holding(d, n, o) && CanAppend(d.heap, d.shape, l, n, o)
      modifies this`index, this`layout, this`bids, this`asks, orderPool`contents, orderPool.store
      ensures Valid() && Book(o.side) == Enqueue(old(Book(o.side)), o)
      ensures IsTradeSide(o.side) && Book(Opposite(o.side)) == old(Book(Opposite(o.side)))
    {
      hide WellFormed, CanAppend, Flat, Enqueue, Splice, Ring;
      ghost var h, g := d.heap, d.shape;
      QueueReady(h, g, l, n, o);
      JoinQueue(l, n, g.queue[l]);
      AppendFlat(h, g, l, n, o);
      AppendAccounted(g, l, n, levelPool.flags, orderPool.flags);
      Register(o.key, n, LayoutData(AppendHeap(h, g, l, n, o), AppendShape(g, l, n)));
    }

    /** Takes a block for `o` and puts the order at the end of its level, opening the level if there
        is none at its price. */
    method AddOrder(o: Order<K>)
      requires Valid() && IsTradeSide(o.side) && Unnamed(Book(BUY), o.key) && Unnamed(Book(SELL), o.key)
      requires SlotFits(Book(o.side), Book(Opposite(o.side)), o.price)
      requires HasRoom(Book(o.side), Book(Opposite(o.side)), o.price, levelPool.store.Length, orderPool.store.Length)
      requires LastAtPrice(Book(o.side), o)
      modifies repr
      ensures Valid()
      ensures Book(o.side) == Enqueue(old(Book(o.side)), o)
      ensures Book(Opposite(o.side)) == old(Book(Opposite(o.side)))
    {
      hide WellFormed, CanAppend, Flat, Enqueue, NextPriority, HasRoom;
      ghost var d := layout;
      NotIndexed(d.heap, d.shape, o.key);
      RoomIsFree(d.heap, d.shape, levelPool.flags, orderPool.flags, o.side, o.price);
      var n := TakeBlock(o);
      var l := at[PriceToIndex(o.price)];
      if l == NULL {
        AddOpening(n, o, d);
      } else {
        ReadyToAppend(d.heap, d.shape, n, o);
        AddJoining(n, o, l, d);
      }
    }

    // ----- reading -----

    function Read(n: nat): (o: Order<K>)
      requires Valid() && Queued(n)
      reads this, repr
      ensures o == At(n)
    {
      orderPool.store[n].data
    }

    /** The order first in line on a side, as a slot, or `NULL` when the side is empty. */
    method Front(side: Side) returns (n: int)
      requires Valid() && IsTradeSide(side)
      ensures n == NULL <==> Book(side) == []
      ensures n != NULL ==> n >= 0 && Queued(n) && At(n) == Book(side)[0]
    {
      hide WellFormed, Flat;
      FrontFound(layout.heap, layout.shape, side);
      n := if Best(side) == NULL then NULL else levelPool.store[Best(side)].data.first;
    }

    /** The slot of the order named `key`, or `NULL`. */
    method Find(key: K) returns (n: int)
      requires Valid()
      ensures n == NULL ==> Unnamed(Book(BUY), key) && Unnamed(Book(SELL), key)
      ensures n != NULL ==>
                && n >= 0 && Queued(n) && At(n).key == key && IsTradeSide(At(n).side)
                && At(n) in Book(At(n).side)
    {
      hide WellFormed, Flat;
      if key in index {
        IndexedShows(layout.heap, layout.shape, key);
        return index[key];
      }
      NotIndexed(layout.heap, layout.shape, key);
      return NULL;
    }

    /** The priority of the next order at a price. */
    method GetNextPriority(price: int, ghost side: Side) returns (p: nat)
      requires Valid() && IsTradeSide(side) && SlotFits(Book(side), Book(Opposite(side)), price)
      ensures p == NextPriority(Book(side), price)
    {
      hide WellFormed, Flat, NextPriority, SlotFits;
      var l := at[PriceToIndex(price)];
      if l == NULL {
        PriorityOfNewLevel(layout.heap, layout.shape, side, price);
        return 1;
      }
      BackFound(layout.heap, layout.shape, side, price);
      return orderPool.store[orderPool.store[levelPool.store[l].data.first].prev].data.priority + 1;
    }

    // ----- changing and removing an order -----

    /** Overwrites the quantity of the order in slot `n`. */
    method SetQty(n: nat, qty: nat)
      requires Valid() && Queued(n)
      modifies repr
      ensures Valid() && Queued(n) && At(n) == old(At(n)).(qty := qty)
      ensures var o := old(At(n));
              && IsTradeSide(o.side) && Book(o.side) == Resize(old(Book(o.side)), o.key, qty)
              && Book(Opposite(o.side)) == old(Book(Opposite(o.side)))
    {
      hide WellFormed, Flat, Resize;
      ghost var h, g := layout.heap, layout.shape;
      ghost var l, i := Standing(h, g, n);
      ResizeFlat(h, g, n, l, i, qty);
      orderPool.Put(n, orderPool.store[n].(data := orderPool.store[n].data.(qty := qty)));
      layout := LayoutData(ResizeHeap(h, n, qty), g);
      bids, asks := Flat(layout.heap, g, BUY), Flat(layout.heap, g, SELL);
    }

    /** Takes level `l` out from between its neighbours, moving the best pointer on if it was the best. */
    method UnlinkLevel(l: nat, side: Side, ghost prev: nat, ghost next: nat)
      requires levelPool.Valid() && IsTradeSide(side) && l < |levelPool.contents|
      requires prev < |levelPool.contents| && next < |levelPool.contents| && prev != l && next != l
      requires levelPool.contents[l].prev == prev && levelPool.contents[l].next == next
      modifies this`bidsByPrice, this`asksByPrice, levelPool`contents, levelPool.store
      ensures levelPool.Valid() && levelPool.contents == Unlink(old(levelPool.contents), l, prev, next)
      ensures Best(side) == if old(Best(side)) == l then next else old(Best(side))
      ensures Best(Opposite(side)) == old(Best(Opposite(side)))
    {
      var level := levelPool.store[l];
      levelPool.Put(level.prev, levelPool.store[level.prev].(next := level.next));
      levelPool.Put(level.next, levelPool.store[level.next].(prev := level.prev));
      if l == Best(side) {
        SetBest(side, levelPool.store[l].next);
      }
      levelPool.Put(l, levelPool.store[l].(prev := NULL, next := NULL));
    }

    /** Takes the level of `price` out of the ring of its side and out of the level index. */
    method RemoveOrdersAtPrice(side: Side, price: int, ghost ring: seq<nat>, ghost k: nat)
      requires Memory() && IsTradeSide(side) && LadderOk(levelPool.contents, ring, side)
      requires k < |ring| && slots[PriceToIndex(price)] == ring[k] && Best(side) == ring[0]
      requires ring[k] < |levelPool.flags| && !levelPool.flags[ring[k]]
      modifies this`bidsByPrice, this`asksByPrice, this`slots, levelPool`contents, levelPool`flags
      modifies levelPool.store, levelPool.isFree, at
      ensures Memory()
      ensures levelPool.contents == UnlevelLevels(old(levelPool.contents), ring, k)
      ensures levelPool.flags == old(levelPool.flags)[ring[k] := true]
      ensures slots == old(slots)[PriceToIndex(price) := NULL]
      ensures Best(side) == HeadOf(Removed(ring, k)) && Best(Opposite(side)) == old(Best(Opposite(side)))
    {
      var l: nat := at[PriceToIndex(price)];
      assert LinksAt(levelPool.contents, ring, k);
      SingleRing(levelPool.contents, ring, k);
      if levelPool.store[l].next == l {
        SetBest(side, NULL);
      } else {
        UnlinkLevel(l, side, Before(ring, k), After(ring, k));
      }
      at[PriceToIndex(price)] := NULL;
      slots := slots[PriceToIndex(price) := NULL];
      levelPool.Deallocate(l);
    }

    /** Takes order `n` out of the queue of level `l`, which keeps others. */
    method LeaveQueue(n: nat, l: nat, ghost q: seq<nat>, ghost i: nat)
      requires Memory() && l < |levelPool.contents| && n < |orderPool.contents|
      requires Ring(orderPool.contents, q) && i < |q| && q[i] == n && 1 < |q|
      requires levelPool.contents[l].data.first == q[0]
      modifies levelPool`contents, levelPool.store, orderPool`contents, orderPool.store
      ensures Memory() && orderPool.contents == Unlink(old(orderPool.contents), n, Before(q, i), After(q, i))
      ensures levelPool.contents == old(levelPool.contents)[l := old(levelPool.contents)[l].(data :=
                old(levelPool.contents)[l].data.(first := if i == 0 then After(q, 0) else q[0]))]
    {
      assert LinksAt(orderPool.contents, q, i);
      SameSlot(q, i, 0);
      assert Before(q, i) in q && After(q, i) in q;
      var before, after := orderPool.store[n].prev, orderPool.store[n].next;
      orderPool.Put(before, orderPool.store[before].(next := after));
      orderPool.Put(after, orderPool.store[after].(prev := before));
      if levelPool.store[l].data.first == n {
        levelPool.Put(l, levelPool.store[l].(data := levelPool.store[l].data.(first := after)));
      } else {
        assert levelPool.contents == old(levelPool.contents)[l := old(levelPool.contents)[l]];
      }
      orderPool.Put(n, orderPool.store[n].(prev := NULL, next := NULL));
    }

    /** Takes the name out of the index and hands the block back; the new layout is given. */
    method Unregister(key: K, n: nat, ghost d: Layout<K>)
      requires Memory() && n < |orderPool.flags| && !orderPool.flags[n]
      modifies this`index, this`layout, this`bids, this`asks, orderPool`flags, orderPool.isFree
      ensures Memory() && index == old(index) - {key} && Shows(d)
      ensures orderPool.flags == old(orderPool.flags)[n := true]
    {
      hide WellFormed, Flat;
      index := index - {key};
      orderPool.Deallocate(n);
      layout, bids, asks := d, Flat(d.heap, d.shape, BUY), Flat(d.heap, d.shape, SELL);
    }

    method RemoveAmongOthers(n: nat, ghost l: nat, ghost i: nat)
      requires Valid() && StandsAt(layout.heap, layout.shape, n, l, i) && 1 < |layout.shape.queue[l]|
      requires at[PriceToIndex(orderPool.contents[n].data.price)] == l
      modifies repr
      ensures Valid()
      ensures var o, side := old(orderPool.contents[n].data), old(levelPool.contents[l].data.side);
              && IsTradeSide(side) && Book(side) == Drop(old(Book(side)), o.key)
              && Book(Opposite(side)) == old(Book(Opposite(side)))
    {
      hide WellFormed, Flat, Drop, Accounted;
      ghost var h, g := layout.heap, layout.shape;
      LeaveFlat(h, g, n, l, i);
      QueueRing(h, g, l);
      var order := orderPool.store[n];
      BlockTaken(g, n, levelPool.flags, orderPool.flags);
      LeaveAccounted(g, n, l, i, levelPool.flags, orderPool.flags);
      LeaveQueue(n, at[PriceToIndex(order.data.price)], g.queue[l], i);
      Unregister(order.data.key, n, LayoutData(LeaveHeap(h, g, n, l, i), LeaveShape(g, n, l, i)));
    }

    method RemoveLast(n: nat, ghost l: nat, ghost k: nat)
      requires Valid() && n < |orderPool.contents| && l < |levelPool.contents|
      requires LastOrder(layout.heap, layout.shape, levelPool.contents[l].data.side, k, n)
      requires layout.shape.On(levelPool.contents[l].data.side)[k] == l
      requires BelongsTo(levelPool.contents[l].data, orderPool.contents[n].data)
      requires at[PriceToIndex(orderPool.contents[n].data.price)] == l
      modifies repr
      ensures Valid()
      ensures var o, side := old(orderPool.contents[n].data), old(levelPool.contents[l].data.side);
              && IsTradeSide(side) && Book(side) == Drop(old(Book(side)), o.key)
              && Book(Opposite(side)) == old(Book(Opposite(side)))
    {
      hide WellFormed, Flat, Drop, Accounted, LadderOk, UnlevelLevels, QueuesOk, AtOk, HomeOk, IndexOk, LevelsOk;
      hide RingsIn, Distinct;
      ghost var h, g, side := layout.heap, layout.shape, levelPool.contents[l].data.side;
      Parts(h, g);
      var order := orderPool.store[n].data;
      BlockTaken(g, n, levelPool.flags, orderPool.flags);
      LevelTaken(g, l, levelPool.flags, orderPool.flags);
      RemoveOrdersAtPrice(order.side, order.price, g.On(side), k);
      FinishClosing(order.key, n, side, k, layout, old(levelPool.flags));
    }

    method FinishClosing(key: K, n: nat, ghost side: Side, ghost k: nat, ghost d: Layout<K>, ghost levelFree: seq<bool>)
      requires Memory() && Shows(d) && index == d.heap.index && LastOrder(d.heap, d.shape, side, k, n)
      requires var h' := UnlevelHeap(d.heap, d.shape, side, k, n);
               levelPool.contents == h'.levels && orderPool.contents == h'.orders && slots == h'.at
      requires key == d.heap.orders[n].data.key && Accounted(d.shape, levelFree, orderPool.flags)
      requires d.shape.On(side)[k] < |levelFree| && levelPool.flags == levelFree[d.shape.On(side)[k] := true]
      requires n < |orderPool.flags| && !orderPool.flags[n]
      requires Best(side) == HeadOf(Removed(d.shape.On(side), k))
      requires Best(Opposite(side)) == HeadOf(d.shape.On(Opposite(side)))
      modifies this`index, this`layout, this`bids, this`asks, orderPool`flags, orderPool.isFree
      ensures Valid()
      ensures Book(side) == Drop(old(Book(side)), key) && Book(Opposite(side)) == old(Book(Opposite(side)))
    {
      hide WellFormed, Flat, Drop, Accounted;
      UnlevelFlat(d.heap, d.shape, side, k, n);
      UnlevelAccounted(d.shape, side, k, n, levelFree, orderPool.flags);
      Unregister(key, n, LayoutData(UnlevelHeap(d.heap, d.shape, side, k, n), UnlevelShape(d.shape, side, k, n)));
    }

    /** Takes the order in slot `n` out of its queue, closing its level if it was alone there. */
    method RemoveOrder(n: nat)
      requires Valid() && Queued(n)
      modifies repr
      ensures Valid()
      ensures var o := old(At(n));
              && IsTradeSide(o.side) && Book(o.side) == Drop(old(Book(o.side)), o.key)
              && Book(Opposite(o.side)) == old(Book(Opposite(o.side)))
    {
      hide WellFormed, Flat, Drop;
      ghost var h, g := layout.heap, layout.shape;
      ghost var l, i := Standing(h, g, n);
      var order := orderPool.store[n];
      if order.prev == n {
        ghost var k := LevelPosition(h, g, l);
        RemoveLast(n, l, k);
      } else {
        RemoveAmongOthers(n, l, i);
      }
    }

    // ----- the client's extras: totals and clearing -----

    /** The best price of a side, and the total quantity of its level by walking the ring of orders. */
    method TopLevel(side: Side) returns (price: int, qty: nat)
      requires Valid() && IsTradeSide(side)
      ensures price == TopPrice(Book(side)) && qty == TopQty(Book(side))
    {
      hide WellFormed, Flat, RunQty, LadderOk, QueueOk, Wrap, Accounted, Separate;
      FrontFound(layout.heap, layout.shape, side);
      if Best(side) == NULL {
        return PRICE_INVALID, QTY_INVALID;
      }
      TopRun(layout.heap, layout.shape, side);
      ghost var s, q := Book(side), layout.shape.queue[Best(side)];
      price := levelPool.store[Best(side)].data.price;
      var first := levelPool.store[Best(side)].data.first;
      RunStep(s, 0, price, 0);
      assert s[0..] == s && LinksAt(orderPool.contents, q, 0);
      qty := Wrap(orderPool.store[first].data.qty);
      var n := orderPool.store[first].next;
      ghost var i := 1;
      while n != first
        invariant 1 <= i <= |q| && n == (if i == |q| then first else q[i])
        invariant Wrap(qty + RunQty(s[i..], price)) == Wrap(RunQty(s, price)) && Wrap(qty) == qty
        decreases |q| - i
      {
        RunStep(s, i, price, qty);
        assert LinksAt(orderPool.contents, q, i);
        qty := Wrap(qty + orderPool.store[n].data.qty);
        n := orderPool.store[n].next;
        i := i + 1;
      }
      RunStops(s, q, i, price);
    }

    /** Hands back the block of every indexed order. */
    method FreeOrders()
      requires Valid()
      modifies orderPool`flags, orderPool.isFree
      ensures Memory() && Unused(orderPool.flags)
    {
      hide WellFormed, Flat;
      ghost var h, g := layout.heap, layout.shape;
      var keys := index.Keys;
      IndexCovers(h, g, orderPool.flags);
      while keys != {}
        invariant Memory() && keys <= index.Keys && |orderPool.flags| == |h.orders|
        invariant forall n :: 0 <= n < |h.orders| ==>
            (!orderPool.flags[n] <==> n in g.home && h.orders[n].data.key in keys)
        decreases |keys|
      {
        var key :| key in keys;
        IndexedShows(h, g, key);
        OneOfAName(h, g, key);
        orderPool.Deallocate(index[key]);
        keys := keys - {key};
      }
    }

    /** Hands back the block of every level of one ring. */
    method FreeLevels(best: int, ghost ring: seq<nat>)
      requires Memory() && Ring(levelPool.contents, ring) && best == HeadOf(ring)
      requires |levelPool.flags| == |levelPool.contents| && forall i :: 0 <= i < |ring| ==> !levelPool.flags[ring[i]]
      modifies levelPool`flags, levelPool.isFree
      ensures Memory() && |levelPool.flags| == |old(levelPool.flags)|
      ensures forall n :: 0 <= n < |levelPool.flags| ==> levelPool.flags[n] == (old(levelPool.flags)[n] || n in ring)
    {
      if best != NULL {
        assert LinksAt(levelPool.contents, ring, 0);
        var l := levelPool.store[best].next;
        ghost var i := 1;
        while l != best
          invariant Memory() && |levelPool.flags| == |old(levelPool.flags)|
          invariant 1 <= i <= |ring| && l == (if i == |ring| then best else ring[i])
          invariant forall n :: 0 <= n < |levelPool.flags| ==>
              levelPool.flags[n] == (old(levelPool.flags)[n] || n in ring[1..i])
          decreases |ring| - i
        {
          assert LinksAt(levelPool.contents, ring, i);
          assert ring[i] !in ring[1..i] && ring[1..i + 1] == ring[1..i] + [ring[i]];
          levelPool.Deallocate(l);
          l := levelPool.store[l].next;
          i := i + 1;
        }
        assert ring == [ring[0]] + ring[1..] && ring[1..|ring|] == ring[1..];
        levelPool.Deallocate(best);
      }
    }

    /** Empties every price slot.
        Repair: market_order_book.cpp:53-76 leaves the level index as it is. */
    method ClearSlots()
      requires Memory()
      modifies this`slots, at
      ensures Memory() && forall i :: 0 <= i < at.Length ==> at[i] == NULL
    {
      for i := 0 to at.Length
        invariant forall j :: 0 <= j < i ==> at[j] == NULL
      {
        at[i] := NULL;
      }
      slots := at[..];
    }

    /** Empties the book. */
    method Clear()
      requires Valid()
      modifies repr
      ensures Valid() && Book(BUY) == [] && Book(SELL) == []
    {
      hide WellFormed, Flat;
      ghost var h, g := layout.heap, layout.shape;
      RingsCover(h, g, levelPool.flags);
      FreeOrders();
      index := map[];
      FreeLevels(bidsByPrice, g.bids);
      FreeLevels(asksByPrice, g.asks);
      bidsByPrice, asksByPrice := NULL, NULL;
      ClearSlots();
      Begin();
    }
  }

  lemma QueueReady<K>(h: Heap<K>, g: Shape, l: nat, n: nat, o: Order<K>)
    requires CanAppend(h, g, l, n, o)
    ensures l in g.queue && l < |h.levels| && n < |h.orders|
    ensures g.queue[l] != [] && n !in g.queue[l] && h.levels[l].data.first == g.queue[l][0]
    ensures Ring(h.orders[n := Node(o, NULL, NULL)], g.queue[l])
  {
    assert QueueOk(h.levels[l].data, h.orders, g.queue[l]);
    NotQueued(g, n);
    RingFrame(h.orders, h.orders[n := Node(o, NULL, NULL)], g.queue[l]);
  }

  lemma ReadyToAppend<K>(h: Heap<K>, g: Shape, n: nat, o: Order<K>)
    requires WellFormed(h, g) && IsTradeSide(o.side) && h.at[PriceToIndex(o.price)] != NULL
    requires SlotFits(Flat(h, g, o.side), Flat(h, g, Opposite(o.side)), o.price)
    requires n < |h.orders| && n !in g.home && o.key !in h.index
    requires LastAtPrice(Flat(h, g, o.side), o)
    ensures h.at[PriceToIndex(o.price)] >= 0 && CanAppend(h, g, h.at[PriceToIndex(o.price)], n, o)
  {
    LevelFound(h, g, o);
  }

  lemma LevelIsNew(g: Shape, l: nat, levelFree: seq<bool>, orderFree: seq<bool>)
    requires Accounted(g, levelFree, orderFree) && l < |levelFree| && levelFree[l] && RingsIn(g)
    ensures l !in g.queue && l !in g.bids && l !in g.asks
  {
  }

  lemma LevelAccounted(g: Shape, side: Side, k: nat, l: nat, n: nat, levelFree: seq<bool>, orderFree: seq<bool>)
    requires k <= |g.On(side)| && n < |orderFree| && !orderFree[n] && l < |levelFree| && levelFree[l]
    requires Accounted(g, levelFree, orderFree[n := true])
    ensures Accounted(LevelShape(g, side, k, l, n), levelFree[l := false], orderFree)
  {
    TakeAccounted(levelFree, l);
    TakeAccounted(orderFree[n := true], n);
    assert orderFree[n := true][n := false] == orderFree;
  }

  /** A free block holds no order. */
  lemma FreeIsUnused(g: Shape, n: nat, levelFree: seq<bool>, orderFree: seq<bool>)
    requires Accounted(g, levelFree, orderFree) && n < |orderFree| && orderFree[n]
    ensures n !in g.home
  {
    assert forall s :: s in g.home <==> s in g.home.Keys;
  }

  lemma AppendAccounted(g: Shape, l: nat, n: nat, levelFree: seq<bool>, orderFree: seq<bool>)
    requires l in g.queue && n < |orderFree| && !orderFree[n]
    requires Accounted(g, levelFree, orderFree[n := true])
    ensures Accounted(AppendShape(g, l, n), levelFree, orderFree)
  {
    TakeAccounted(orderFree[n := true], n);
    assert orderFree[n := true][n := false] == orderFree;
    assert AppendShape(g, l, n).queue.Keys == g.queue.Keys;
  }

  /** The last order of every level in use shows in the list of its side. */
  lemma LevelShows<K>(h: Heap<K>, g: Shape, l: nat) returns (k: nat, i: nat)
    requires WellFormed(h, g) && l in g.queue
    ensures l < |h.levels|
    ensures var side := h.levels[l].data.side;
            && IsTradeSide(side) && k < |g.On(side)| && g.On(side)[k] == l
            && QueueOk(h.levels[l].data, h.orders, g.queue[l])
            && i < |Flat(h, g, side)| && Flat(h, g, side)[i].price == h.levels[l].data.price
            && Flat(h, g, side)[i] == h.orders[g.queue[l][|g.queue[l]| - 1]].data
  {
    k := LevelPosition(h, g, l);
    var side, last := h.levels[l].data.side, |g.queue[l]| - 1;
    assert QueueOk(h.levels[l].data, h.orders, g.queue[l]);
    SlotsAround(g, side, k, last);
    i := |FrontSlots(g, side, k, last)|;
    assert Slots(g.queue, g.On(side))[i] == g.queue[l][last];
  }

  /** The level found at the slot of a fitting price is the level of that price and side. */
  lemma LevelFound<K>(h: Heap<K>, g: Shape, o: Order<K>)
    requires WellFormed(h, g) && IsTradeSide(o.side) && |h.at| == ME_MAX_PRICE_LEVELS
    requires h.at[PriceToIndex(o.price)] != NULL
    requires SlotFits(Flat(h, g, o.side), Flat(h, g, Opposite(o.side)), o.price)
    requires LastAtPrice(Flat(h, g, o.side), o)
    ensures var l := h.at[PriceToIndex(o.price)];
            && 0 <= l < |h.levels| && l in g.queue && BelongsTo(h.levels[l].data, o)
            && QueueOk(h.levels[l].data, h.orders, g.queue[l])
            && h.orders[g.queue[l][|g.queue[l]| - 1]].data.priority < o.priority
  {
    hide WellFormed, Flat, QueueOk;
    var l := SlotInUse(h, g, PriceToIndex(o.price));
    var k, i := LevelShows(h, g, l);
  }

  lemma SlotInUse<K>(h: Heap<K>, g: Shape, i: nat) returns (l: nat)
    requires WellFormed(h, g) && i < |h.at| && h.at[i] != NULL
    ensures h.at[i] == l < |h.levels| && l in g.queue && PriceToIndex(h.levels[l].data.price) == i
    ensures g.queue[l] != [] && forall j :: 0 <= j < |g.queue[l]| ==> g.queue[l][j] < |h.orders|
  {
    l := h.at[i];
    assert QueueOk(h.levels[l].data, h.orders, g.queue[l]);
  }

  lemma LadderInStore(levels: seq<Node<LevelData>>, ring: seq<nat>, side: Side)
    requires LadderOk(levels, ring, side)
    ensures InStore(levels, ring)
  {
  }

  lemma NoLevelAt<K>(h: Heap<K>, g: Shape, ring: seq<nat>, price: int)
    requires AtOk(h, g) && h.at[PriceToIndex(price)] == NULL && InStore(h.levels, ring)
    requires forall i :: 0 <= i < |ring| ==> ring[i] in g.queue
    ensures NewPrice(h.levels, ring, price)
  {
  }

  /** After a new best level is linked in, the old best level does not point at itself. */
  lemma NoShortcut(before: seq<Node<LevelData>>, ring: seq<nat>, l: nat)
    requires Ring(before, ring) && ring != [] && l < |before| && l !in ring
    ensures Splice(before, l, LeftOf(ring, 0), RightOf(ring, 0))[ring[0]].next != ring[0]
  {
    assert LinksAt(before, ring, 0);
  }

  lemma EmptyFits<K>(h: Heap<K>, levelFree: seq<bool>, orderFree: seq<bool>) returns (d: Layout<K>)
    requires h.index == map[] && |h.at| == ME_MAX_PRICE_LEVELS && forall i :: 0 <= i < |h.at| ==> h.at[i] == NULL
    requires Unused(levelFree) && Unused(orderFree)
    ensures d.heap == h && d.shape == Shape([], [], map[], map[])
    ensures Flat(h, d.shape, BUY) == [] && Flat(h, d.shape, SELL) == []
    ensures Accounted(d.shape, levelFree, orderFree)
  {
    UnusedEmpty(levelFree);
    UnusedEmpty(orderFree);
    d := LayoutData(h, Shape([], [], map[], map[]));
  }

  lemma UnusedEmpty(flags: seq<bool>)
    requires Unused(flags)
    ensures InUse(flags) == {} && |InUse(flags)| == 0
  {
  }

  lemma LadderIsRing(levels: seq<Node<LevelData>>, ring: seq<nat>, side: Side)
    requires LadderOk(levels, ring, side)
    ensures Ring(levels, ring)
  {
  }

  /** A price belongs in front of the whole ring exactly when it is better than the best. */
  lemma BestIsFirst(levels: seq<Node<LevelData>>, ring: seq<nat>, side: Side, price: int, k: nat)
    requires PriceFits(levels, ring, side, price, k) && ring != []
    ensures k <= |ring| && (k == 0 <==> Better(side, price, levels[ring[0]].data.price))
  {
  }

  lemma PlaceFound(levels: seq<Node<LevelData>>, ring: seq<nat>, side: Side, price: int, k: nat)
    requires IsTradeSide(side) && LadderOk(levels, ring, side) && k < |ring|
    requires forall i :: 0 <= i < k ==> Better(side, levels[ring[i]].data.price, price)
    requires !Better(side, levels[ring[k]].data.price, price) && levels[ring[k]].data.price != price
    ensures PriceFits(levels, ring, side, price, k)
  {
  }

  lemma FitsFrame(levels: seq<Node<LevelData>>, levels': seq<Node<LevelData>>, ring: seq<nat>, side: Side, price: int,
          k: nat)
    requires InStore(levels, ring) && |levels'| == |levels| && PriceFits(levels', ring, side, price, k)
    requires forall i :: 0 <= i < |ring| ==> levels'[ring[i]].data == levels[ring[i]].data
    ensures PriceFits(levels, ring, side, price, k)
  {
  }

  /** An indexed order shows on its side. */
  lemma IndexedShows<K>(h: Heap<K>, g: Shape, key: K)
    requires WellFormed(h, g) && key in h.index
    ensures var n := h.index[key];
            && n < |h.orders| && n in g.home && h.orders[n].data.key == key && IsTradeSide(h.orders[n].data.side)
            && h.orders[n].data in Flat(h, g, h.orders[n].data.side)
  {
    hide WellFormed, Slots, LadderOk, QueuesOk, QueueOk, AtOk, HomeOk;
    Parts(h, g);
    var n := h.index[key];
    var l, i := Standing(h, g, n);
    var k := LevelPosition(h, g, l);
    var side := h.levels[l].data.side;
    SlotsAround(g, side, k, i);
    SideWithin(h, g, side);
    var j := |FrontSlots(g, side, k, i)|;
    assert Slots(g.queue, g.On(side))[j] == n;
    assert Flat(h, g, side)[j] == h.orders[n].data;
  }

  /** An order that shows on a side is indexed. */
  lemma ShownIsIndexed<K>(h: Heap<K>, g: Shape, side: Side, i: nat)
    requires WellFormed(h, g) && IsTradeSide(side) && i < |Flat(h, g, side)|
    ensures Flat(h, g, side)[i].key in h.index
  {
    hide WellFormed, Slots, LadderOk, QueuesOk, QueueOk, AtOk, HomeOk;
    Parts(h, g);
    SideWithin(h, g, side);
    SlotsAtHome(g, g.On(side));
  }

  lemma NotIndexed<K>(h: Heap<K>, g: Shape, key: K)
    requires WellFormed(h, g)
    ensures key !in h.index <==> Unnamed(Flat(h, g, BUY), key) && Unnamed(Flat(h, g, SELL), key)
  {
    hide WellFormed, Flat;
    if key in h.index {
      IndexedShows(h, g, key);
    } else {
      forall i | 0 <= i < |Flat(h, g, BUY)|
        ensures Flat(h, g, BUY)[i].key != key
      {
        ShownIsIndexed(h, g, BUY, i);
      }
      forall i | 0 <= i < |Flat(h, g, SELL)|
        ensures Flat(h, g, SELL)[i].key != key
      {
        ShownIsIndexed(h, g, SELL, i);
      }
    }
  }

  lemma FrontFound<K>(h: Heap<K>, g: Shape, side: Side)
    requires WellFormed(h, g) && IsTradeSide(side)
    ensures HeadOf(g.On(side)) == NULL <==> Flat(h, g, side) == []
    ensures HeadOf(g.On(side)) != NULL ==>
              && 0 <= HeadOf(g.On(side)) < |h.levels|
              && var n := h.levels[HeadOf(g.On(side))].data.first;
                 0 <= n < |h.orders| && n in g.home && h.orders[n].data == Flat(h, g, side)[0]
  {
    hide WellFormed, Flat;
    HeadOfSide(h, g, side);
    if g.On(side) != [] {
      QueueParts(h, g, g.On(side)[0]);
    }
  }

  lemma BackFound<K>(h: Heap<K>, g: Shape, side: Side, price: int)
    requires WellFormed(h, g) && IsTradeSide(side) && h.at[PriceToIndex(price)] != NULL
    requires SlotFits(Flat(h, g, side), Flat(h, g, Opposite(side)), price)
    ensures 0 <= h.at[PriceToIndex(price)] < |h.levels|
    ensures var first := h.levels[h.at[PriceToIndex(price)]].data.first;
            && 0 <= first < |h.orders| && 0 <= h.orders[first].prev < |h.orders|
            && NextPriority(Flat(h, g, side), price) == h.orders[h.orders[first].prev].data.priority + 1
  {
    hide WellFormed, Flat, NextPriority, QueueOk;
    assert |h.at| == ME_MAX_PRICE_LEVELS by { Parts(h, g); }
    var l := SlotInUse(h, g, PriceToIndex(price));
    var k, i := LevelShows(h, g, l);
    PriorityOfLevel(h, g, h.levels[l].data.side, k);
    QueueRing(h, g, l);
    assert LinksAt(h.orders, g.queue[l], 0);
  }

  /** Where a queued order stands, and what its links and its price slot say about that. */
  lemma Standing<K>(h: Heap<K>, g: Shape, s: nat) returns (l: nat, i: nat)
    requires WellFormed(h, g) && s in g.home
    ensures StandsAt(h, g, s, l, i) && h.at[PriceToIndex(h.orders[s].data.price)] == l
    ensures BelongsTo(h.levels[l].data, h.orders[s].data)
    ensures h.orders[s].prev == s <==> |g.queue[l]| == 1
  {
    AtHome(h, g, s);
    l := g.home[s];
    i :| 0 <= i < |g.queue[l]| && g.queue[l][i] == s;
    assert QueueOk(h.levels[l].data, h.orders, g.queue[l]);
    SingleRing(h.orders, g.queue[l], i);
  }

  /** Only a ring of one points at itself. */
  lemma SingleRing<T>(s: seq<Node<T>>, r: seq<nat>, k: nat)
    requires Ring(s, r) && k < |r|
    ensures s[r[k]].next == r[k] <==> |r| == 1
    ensures s[r[k]].prev == r[k] <==> |r| == 1
  {
    assert LinksAt(s, r, k);
  }

  lemma QueueRing<K>(h: Heap<K>, g: Shape, l: nat)
    requires WellFormed(h, g) && l in g.queue
    ensures l < |h.levels| && Ring(h.orders, g.queue[l]) && g.queue[l] != [] && h.levels[l].data.first == g.queue[l][0]
  {
    assert QueueOk(h.levels[l].data, h.orders, g.queue[l]);
  }

  lemma BlockTaken(g: Shape, n: nat, levelFree: seq<bool>, orderFree: seq<bool>)
    requires Accounted(g, levelFree, orderFree) && n in g.home
    ensures n < |orderFree| && !orderFree[n]
  {
  }

  lemma LevelTaken(g: Shape, l: nat, levelFree: seq<bool>, orderFree: seq<bool>)
    requires Accounted(g, levelFree, orderFree) && l in g.queue
    ensures l < |levelFree| && !levelFree[l]
  {
  }

  lemma LeaveAccounted(g: Shape, s: nat, l: nat, i: nat, levelFree: seq<bool>, orderFree: seq<bool>)
    requires Accounted(g, levelFree, orderFree) && l in g.queue && i < |g.queue[l]| && s in g.home
    ensures s < |orderFree| && Accounted(LeaveShape(g, s, l, i), levelFree, orderFree[s := true])
  {
    GiveAccounted(orderFree, s);
    assert LeaveShape(g, s, l, i).queue.Keys == g.queue.Keys;
    assert LeaveShape(g, s, l, i).home.Keys == g.home.Keys - {s};
  }

  lemma UnlevelAccounted(g: Shape, side: Side, k: nat, s: nat, levelFree: seq<bool>, orderFree: seq<bool>)
    requires Accounted(g, levelFree, orderFree) && k < |g.On(side)| && g.On(side)[k] in g.queue && s in g.home
    ensures var l := g.On(side)[k];
            && s < |orderFree| && l < |levelFree|
            && Accounted(UnlevelShape(g, side, k, s), levelFree[l := true], orderFree[s := true])
  {
    var l, g' := g.On(side)[k], UnlevelShape(g, side, k, s);
    GiveAccounted(orderFree, s);
    GiveAccounted(levelFree, l);
    assert g'.queue.Keys == g.queue.Keys - {l};
    assert g'.home.Keys == g.home.Keys - {s};
  }

  ghost function Elements(s: seq<nat>): set<nat> {
    set x | x in s
  }

  lemma {:induction false} ElementsSize(s: seq<nat>)
    ensures |Elements(s)| <= |s|
    decreases |s|
  {
    if s != [] {
      var n := |s| - 1;
      ElementsSize(s[..n]);
      assert s == s[..n] + [s[n]];
      assert Elements(s) == Elements(s[..n]) + {s[n]};
    }
  }

  /** Every block of an order in use is listed on a side. */
  lemma OrdersCounted<K>(h: Heap<K>, g: Shape)
    requires WellFormed(h, g)
    ensures |g.home.Keys| <= |Flat(h, g, BUY)| + |Flat(h, g, SELL)|
  {
    hide WellFormed, Slots;
    var all := Slots(g.queue, g.bids) + Slots(g.queue, g.asks);
    FlatSizes(h, g);
    forall s | s in g.home.Keys
      ensures s in Elements(all)
    {
      SlotListed(h, g, s);
    }
    ElementsSize(all);
    SubsetSize(g.home.Keys, Elements(all));
  }

  lemma FlatSizes<K>(h: Heap<K>, g: Shape)
    requires WellFormed(h, g)
    ensures |Flat(h, g, BUY)| == |Slots(g.queue, g.bids)| && |Flat(h, g, SELL)| == |Slots(g.queue, g.asks)|
  {
    hide WellFormed, Slots;
    SideWithin(h, g, BUY);
    SideWithin(h, g, SELL);
  }

  lemma SlotListed<K>(h: Heap<K>, g: Shape, s: nat)
    requires WellFormed(h, g) && s in g.home
    ensures s in Slots(g.queue, g.bids) || s in Slots(g.queue, g.asks)
  {
    hide WellFormed, Slots;
    Parts(h, g);
    var l, i := Standing(h, g, s);
    var k := LevelPosition(h, g, l);
    SlotsAround(g, h.levels[l].data.side, k, i);
  }

  lemma LastIsNew(levels: seq<Node<LevelData>>, ring: seq<nat>, side: Side, n: nat)
    requires LadderOk(levels, ring, side) && IsTradeSide(side) && InStore(levels, ring) && n < |ring|
    ensures forall i :: 0 <= i < n ==> levels[ring[i]].data.price != levels[ring[n]].data.price
  {
  }

  /** A sorted ring has as many prices as levels. */
  lemma {:induction false} RingPrices(levels: seq<Node<LevelData>>, ring: seq<nat>, side: Side, n: nat)
    requires LadderOk(levels, ring, side) && IsTradeSide(side) && n <= |ring|
    ensures InStore(levels, ring) && |set i | 0 <= i < n :: levels[ring[i]].data.price| == n
  {
    LadderInStore(levels, ring, side);
    if n > 0 {
      RingPrices(levels, ring, side, n - 1);
      var last := levels[ring[n - 1]].data.price;
      LastIsNew(levels, ring, side, n - 1);
      hide LadderOk;
      var before := set i | 0 <= i < n - 1 :: levels[ring[i]].data.price;
      assert (set i | 0 <= i < n :: levels[ring[i]].data.price) == before + {last};
      assert last !in before;
    }
  }

  /** Every level has a price of its own at which orders rest. */
  lemma SideLevels<K>(h: Heap<K>, g: Shape, side: Side)
    requires WellFormed(h, g) && IsTradeSide(side)
    ensures |g.On(side)| <= |Prices(Flat(h, g, side))|
  {
    hide WellFormed, Flat, QueuesOk, QueueOk, AtOk, IndexOk, HomeOk;
    Parts(h, g);
    var ring := g.On(side);
    RingPrices(h.levels, ring, side, |ring|);
    forall i | 0 <= i < |ring|
      ensures h.levels[ring[i]].data.price in Prices(Flat(h, g, side))
    {
      LevelPrices(h.levels, ring, side, i);
      var k, j := LevelShows(h, g, ring[i]);
    }
    SubsetSize(set i | 0 <= i < |ring| :: h.levels[ring[i]].data.price, Prices(Flat(h, g, side)));
  }

  lemma LevelsCounted<K>(h: Heap<K>, g: Shape)
    requires WellFormed(h, g)
    ensures |g.queue.Keys| <= |Prices(Flat(h, g, BUY))| + |Prices(Flat(h, g, SELL))|
  {
    hide WellFormed, Flat, LadderOk, QueuesOk, AtOk, IndexOk, HomeOk, Prices, Distinct, RingsIn;
    Parts(h, g);
    SideLevels(h, g, BUY);
    SideLevels(h, g, SELL);
    var all := g.bids + g.asks;
    forall l | l in g.queue.Keys
      ensures l in Elements(all)
    {
      assert l in g.bids || l in g.asks;
    }
    ElementsSize(all);
    SubsetSize(g.queue.Keys, Elements(all));
  }

  /** What room for one more order means for the free flags. */
  lemma RoomIsFree<K>(h: Heap<K>, g: Shape, levelFree: seq<bool>, orderFree: seq<bool>, side: Side, price: int)
    requires WellFormed(h, g) && Accounted(g, levelFree, orderFree) && IsTradeSide(side)
    requires HasRoom(Flat(h, g, side), Flat(h, g, Opposite(side)), price, |levelFree|, |orderFree|)
    ensures |InUse(orderFree)| < |orderFree| - 1
    ensures |h.at| == ME_MAX_PRICE_LEVELS
        && (h.at[PriceToIndex(price)] == NULL ==> |InUse(levelFree)| < |levelFree| - 1)
  {
    hide WellFormed, Flat;
    OrdersCounted(h, g);
    LevelsCounted(h, g);
    PricesIndexed(h, g, side, price);
  }

  /** Every price at which orders rest has its level in the level index. */
  lemma PricesIndexed<K>(h: Heap<K>, g: Shape, side: Side, price: int)
    requires WellFormed(h, g) && IsTradeSide(side)
    ensures |h.at| == ME_MAX_PRICE_LEVELS && (price in Prices(Flat(h, g, side)) ==> h.at[PriceToIndex(price)] != NULL)
  {
    hide WellFormed, Slots, LadderOk, QueuesOk, QueueOk, HomeOk;
    Parts(h, g);
    SideWithin(h, g, side);
    SlotsAtHome(g, g.On(side));
    forall i | 0 <= i < |Flat(h, g, side)|
      ensures h.at[PriceToIndex(Flat(h, g, side)[i].price)] != NULL
    {
      AtHome(h, g, Slots(g.queue, g.On(side))[i]);
    }
  }

  /** The best level's queue is the front of its side, and the next order is priced differently. */
  lemma TopRun<K>(h: Heap<K>, g: Shape, side: Side)
    requires WellFormed(h, g) && IsTradeSide(side) && g.On(side) != []
    ensures var l, s := g.On(side)[0], Flat(h, g, side);
            && l < |h.levels| && l in g.queue && g.queue[l] != [] && Ring(h.orders, g.queue[l])
            && h.levels[l].data.first == g.queue[l][0] && |g.queue[l]| <= |s|
            && (forall i :: 0 <= i < |g.queue[l]| ==>
                  s[i] == h.orders[g.queue[l][i]].data && s[i].price == h.levels[l].data.price)
            && (|g.queue[l]| < |s| ==> s[|g.queue[l]|].price != h.levels[l].data.price)
  {
    hide WellFormed, LadderOk, QueuesOk, AtOk, HomeOk, IndexOk;
    Parts(h, g);
    var l := g.On(side)[0];
    QueueParts(h, g, l);
    LevelPrices(h.levels, g.On(side), side, 0);
    BackPrices(h, g, side, 1, h.levels[l].data.price);
    SideWithin(h, g, side);
    assert Slots(g.queue, g.On(side)) == g.queue[l] + Slots(g.queue, g.On(side)[1..]);
  }

  lemma RunStops<K>(s: seq<Order<K>>, q: seq<nat>, i: nat, price: int)
    requires i == |q| <= |s| && (i < |s| ==> s[i].price != price)
    ensures RunQty(s[i..], price) == 0
  {
  }

  lemma IndexCovers<K>(h: Heap<K>, g: Shape, orderFree: seq<bool>)
    requires WellFormed(h, g) && g.home.Keys == InUse(orderFree)
    ensures forall n :: 0 <= n < |orderFree| ==> (!orderFree[n] <==> n in g.home)
    ensures forall n :: n in g.home ==> n < |h.orders| && h.orders[n].data.key in h.index
  {
    assert forall n :: n in g.home <==> n in g.home.Keys;
  }

  lemma OneOfAName<K>(h: Heap<K>, g: Shape, key: K)
    requires WellFormed(h, g) && key in h.index
    ensures forall n :: n in g.home && h.orders[n].data.key == key ==> n == h.index[key]
  {
  }

  lemma RingsCover<K>(h: Heap<K>, g: Shape, levelFree: seq<bool>)
    requires WellFormed(h, g) && g.queue.Keys == InUse(levelFree)
    ensures Ring(h.levels, g.bids) && Ring(h.levels, g.asks)
    ensures forall n :: 0 <= n < |levelFree| ==> (!levelFree[n] <==> n in g.bids || n in g.asks)
    ensures forall i :: 0 <= i < |g.bids| ==> g.bids[i] !in g.asks && g.bids[i] < |levelFree|
    ensures forall i :: 0 <= i < |g.asks| ==> g.asks[i] < |levelFree|
  {
    hide WellFormed;
    Parts(h, g);
    SidesApart(h.levels, g.asks, g.bids, SELL);
    assert forall n :: n in g.queue <==> n in g.queue.Keys;
  }
}
