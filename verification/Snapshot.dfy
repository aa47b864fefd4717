/** The snapshot synthesizer: it folds the numbered updates into the set of live orders and, from
    time to time, writes that set out in ascending order id. Replaying what it writes rebuilds the
    exact book, queue order included. */
module Snapshot {
  import opened Common
  import opened Ladder
  import opened Replica
  import opened UpdateStream

  /** Live orders of one instrument by market order id, each kept as an ADD update. */
  type Ledger = map<nat, Update>

  /** The synthesizer's own checks: it exits when one fails. */
  predicate Recordable(m: Ledger, u: Update) {
    match u.kind
    case ADD => u.oid !in m
    case MODIFY => u.oid in m && m[u.oid].oid == u.oid && m[u.oid].side == u.side
    case REMOVE => u.oid in m && m[u.oid].oid == u.oid && m[u.oid].side == u.side
    case _ => true
  }

  function Record(m: Ledger, u: Update): Ledger {
    match u.kind
    // Repair: snapshot_sythesizer.cpp:61 stores the new order at its ticker id, while lines 58, 66
    // and 79 look it up at its order id. `RecordAsWritten` treats the code as it stands.
    case ADD => m[u.oid := u]
    case MODIFY => if u.oid in m then m[u.oid := m[u.oid].(qty := u.qty, price := u.price)] else m
    case REMOVE => m - {u.oid}
    case _ => m
  }

  /** The ledger of instrument `t` after `us`. */
  function Synthesize(t: nat, us: seq<Update>): Ledger
    decreases |us|
  {
    if us == [] then map[]
    else
      var m := Synthesize(t, us[..|us| - 1]);
      if us[|us| - 1].ticker == t then Record(m, us[|us| - 1]) else m
  }

  function Marker(kind: UpdateType, anchor: nat): Update {
    Update(kind, anchor, TICKER_ID_INVALID, INVALID, PRICE_INVALID, QTY_INVALID, PRIORITY_INVALID)
  }

  function ClearUpdate(t: nat): Update {
    Update(CLEAR, ORDER_ID_INVALID, t, INVALID, PRICE_INVALID, QTY_INVALID, PRIORITY_INVALID)
  }

  /** The orders of one ledger with ids below `n`, in ascending id. */
  function Listing(m: Ledger, n: nat): seq<Update> {
    if n == 0 then []
    else Listing(m, n - 1) + (if n - 1 in m then [m[n - 1]] else [])
  }

  /** The part of a snapshot between its two markers, for the first `n` instruments. */
  function Body(ms: seq<Ledger>, n: nat): seq<Update>
    requires n <= |ms|
  {
    if n == 0 then []
    else Body(ms, n - 1) + [ClearUpdate(n - 1)] + Listing(ms[n - 1], ME_MAX_ORDER_IDS)
  }

  function SnapshotOf(ms: seq<Ledger>, anchor: nat): seq<Update> {
    [Marker(SNAPSHOT_START, anchor)] + Body(ms, |ms|) + [Marker(SNAPSHOT_END, anchor)]
  }

  function Ledgers(us: seq<Update>): (ms: seq<Ledger>)
    ensures |ms| == ME_MAX_TICKERS
    ensures forall t :: 0 <= t < ME_MAX_TICKERS ==> ms[t] == Synthesize(t, us)
  {
    seq(ME_MAX_TICKERS, t requires 0 <= t < ME_MAX_TICKERS => Synthesize(t, us))
  }

  /** The snapshot published once the updates `us` have been folded in. */
  function SnapshotAfter(us: seq<Update>): seq<Update> {
    SnapshotOf(Ledgers(us), |us|)
  }

  // ----- the ledger mirrors the client's book -----

  function Restated(t: nat, o: SeenOrder): Update {
    Update(ADD, o.oid, t, o.side, o.price, o.qty, o.priority)
  }

  ghost predicate Holds(t: nat, m: Ledger, s: seq<SeenOrder>) {
    forall i :: 0 <= i < |s| ==> s[i].oid in m && m[s[i].oid] == Restated(t, s[i])
  }

  ghost predicate Listed(s: seq<SeenOrder>, oid: nat) {
    exists i :: 0 <= i < |s| && s[i].oid == oid
  }

  ghost predicate Mirrors(t: nat, m: Ledger, v: View) {
    && Holds(t, m, v.bids) && Holds(t, m, v.asks)
    && forall oid :: oid in m ==> Listed(v.bids, oid) || Listed(v.asks, oid)
  }

  lemma DistinctSeen(v: View)
    requires GoodView(v)
    ensures forall i, j :: 0 <= i < j < |v.bids| ==> v.bids[i].oid != v.bids[j].oid
    ensures forall i, j :: 0 <= i < j < |v.asks| ==> v.asks[i].oid != v.asks[j].oid
    ensures Disjoint(v.bids, v.asks) && Disjoint(v.asks, v.bids)
  {
    assert forall i, j :: 0 <= i < j < |v.bids| ==> v.bids[i].key != v.bids[j].key;
    assert forall i, j :: 0 <= i < j < |v.asks| ==> v.asks[i].key != v.asks[j].key;
  }

  // How `Holds` and `Listed` follow the three list operations of one side.

  lemma AfterEnqueue(t: nat, m: Ledger, s: seq<SeenOrder>, o: SeenOrder)
    requires Sorted(o.side, s) && Holds(t, m, s) && o.oid !in m
    ensures Holds(t, m[o.oid := Restated(t, o)], Enqueue(s, o))
    ensures forall oid :: Listed(s, oid) || oid == o.oid ==> Listed(Enqueue(s, o), oid)
  {
    hide Enqueue, Sorted;
    EnqueueSlot(s, o);
    AfterSplice(t, m, s, o, Slot(s, o), Enqueue(s, o));
  }

  lemma AfterSplice(t: nat, m: Ledger, s: seq<SeenOrder>, o: SeenOrder, k: nat, r: seq<SeenOrder>)
    requires Spliced(s, o, k, r) && Holds(t, m, s) && o.oid !in m
    ensures Holds(t, m[o.oid := Restated(t, o)], r)
    ensures forall oid :: Listed(s, oid) || oid == o.oid ==> Listed(r, oid)
  {
    forall i | 0 <= i < |r|
      ensures var m' := m[o.oid := Restated(t, o)]; r[i].oid in m' && m'[r[i].oid] == Restated(t, r[i])
    {
      assert i != k ==> r[i] == s[if i < k then i else i - 1];
    }
    forall oid | Listed(s, oid)
      ensures Listed(r, oid)
    {
      var i :| 0 <= i < |s| && s[i].oid == oid;
      assert r[if i < k then i else i + 1] == s[i];
    }
    assert r[k].oid == o.oid;
  }

  lemma AfterResize(t: nat, m: Ledger, s: seq<SeenOrder>, k: nat, qty: nat)
    requires Holds(t, m, s) && k < |s|
    requires forall i, j :: 0 <= i < j < |s| ==> s[i].oid != s[j].oid
    ensures Holds(t, m[s[k].oid := Restated(t, s[k].(qty := qty))], s[k := s[k].(qty := qty)])
    ensures forall oid :: Listed(s, oid) ==> Listed(s[k := s[k].(qty := qty)], oid)
  {
    var r := s[k := s[k].(qty := qty)];
    forall oid | Listed(s, oid)
      ensures Listed(r, oid)
    {
      var i :| 0 <= i < |s| && s[i].oid == oid;
      assert r[i].oid == oid;
    }
  }

  lemma AfterCut(t: nat, m: Ledger, s: seq<SeenOrder>, k: nat)
    requires Holds(t, m, s) && k < |s|
    requires forall i, j :: 0 <= i < j < |s| ==> s[i].oid != s[j].oid
    ensures Holds(t, m - {s[k].oid}, s[..k] + s[k + 1..])
    ensures forall oid :: Listed(s, oid) && oid != s[k].oid ==> Listed(s[..k] + s[k + 1..], oid)
  {
    var r := s[..k] + s[k + 1..];
    forall i | 0 <= i < |r|
      ensures r[i].oid in m - {s[k].oid} && m[r[i].oid] == Restated(t, r[i])
    {
      assert r[i] == s[if i < k then i else i + 1];
    }
    forall oid | Listed(s, oid) && oid != s[k].oid
      ensures Listed(r, oid)
    {
      var i :| 0 <= i < |s| && s[i].oid == oid;
      assert r[if i < k then i else i - 1] == s[i];
    }
  }

  /** Changing one entry does not disturb a side that does not list it. */
  lemma HoldsElsewhere(t: nat, m: Ledger, s: seq<SeenOrder>, oid: nat, u: Update)
    requires Holds(t, m, s) && forall i :: 0 <= i < |s| ==> s[i].oid != oid
    ensures Holds(t, m[oid := u], s) && Holds(t, m - {oid}, s)
  {
  }

  lemma RecordMirrors(t: nat, m: Ledger, v: View, u: Update)
    requires GoodView(v) && Mirrors(t, m, v) && u.ticker == t && Legal(v, u)
    ensures Mirrors(t, Record(m, u), Apply(t, v, u)) && Recordable(m, u)
  {
    DistinctSeen(v);
    match u.kind
    case ADD =>
      var s, other := v.On(u.side), v.On(Opposite(u.side));
      assert u.oid !in m;
      AfterEnqueue(t, m, s, Announced(u));
      HoldsElsewhere(t, m, other, u.oid, u);
    case MODIFY =>
      var k: nat :| Names(v, u, k);
      RecordModify(t, m, v, u, k);
    case REMOVE =>
      var k: nat :| Names(v, u, k);
      RecordRemove(t, m, v, u, k);
    case TRADE =>
  }

  lemma RecordModify(t: nat, m: Ledger, v: View, u: Update, k: nat)
    requires GoodView(v) && Mirrors(t, m, v) && u.ticker == t && u.kind == MODIFY && Names(v, u, k)
    ensures Mirrors(t, Record(m, u), Apply(t, v, u)) && Recordable(m, u)
  {
    var s, other := v.On(u.side), v.On(Opposite(u.side));
    DistinctSeen(v);
    LegalActs(t, v, u, k);
    assert m[u.oid] == Restated(t, s[k]);
    AfterResize(t, m, s, k, u.qty);
    HoldsElsewhere(t, m, other, u.oid, Restated(t, s[k].(qty := u.qty)));
  }

  lemma RecordRemove(t: nat, m: Ledger, v: View, u: Update, k: nat)
    requires GoodView(v) && Mirrors(t, m, v) && u.ticker == t && u.kind == REMOVE && Names(v, u, k)
    ensures Mirrors(t, Record(m, u), Apply(t, v, u)) && Recordable(m, u)
  {
    var s, other := v.On(u.side), v.On(Opposite(u.side));
    DistinctSeen(v);
    LegalActs(t, v, u, k);
    assert m[u.oid] == Restated(t, s[k]);
    AfterCut(t, m, s, k);
    HoldsElsewhere(t, m, other, u.oid, u);
  }

  /** On a legal stream none of the synthesizer's checks fires and its ledger is the client's book. */
  lemma {:induction false} SynthesizeMirrors(t: nat, us: seq<Update>)
    requires LegalFrom(t, EMPTY_VIEW, us)
    ensures Mirrors(t, Synthesize(t, us), Replay(t, us))
    decreases |us|
  {
    if us != [] {
      var n := |us| - 1;
      SynthesizeMirrors(t, us[..n]);
      LegalReplayIsGood(t, us[..n]);
      if us[n].ticker == t {
        RecordMirrors(t, Synthesize(t, us[..n]), Replay(t, us[..n]), us[n]);
      }
    }
  }

  // ----- writing a book in ascending id and replaying it -----

  /** The orders of `s` with ids below `n`, in the order of `s`. */
  function Below(s: seq<SeenOrder>, n: nat): (r: seq<SeenOrder>)
  {
    if s == [] then []
    else (if s[0].oid < n then [s[0]] else []) + Below(s[1..], n)
  }

  lemma {:induction false} BelowSame(s: seq<SeenOrder>, n: nat)
    requires !Listed(s, n)
    ensures Below(s, n + 1) == Below(s, n)
  {
    if s != [] {
      assert forall i :: 0 <= i < |s[1..]| ==> s[1..][i] == s[i + 1];
      assert s[0].oid != n;
      BelowSame(s[1..], n);
    }
  }

  lemma {:induction false} BelowAll(s: seq<SeenOrder>, n: nat)
    requires forall i :: 0 <= i < |s| ==> s[i].oid < n
    ensures Below(s, n) == s
  {
    if s != [] {
      BelowAll(s[1..], n);
    }
  }

  lemma {:induction false} BelowNone(s: seq<SeenOrder>)
    ensures Below(s, 0) == []
  {
    if s != [] {
      BelowNone(s[1..]);
    }
  }

  lemma {:induction false} BelowHead(b: seq<SeenOrder>, n: nat, side: Side, price: int)
    requires forall i :: 0 <= i < |b| && b[i].oid < n ==> Better(side, price, b[i].price)
    ensures Below(b, n) == [] || Better(side, price, Below(b, n)[0].price)
  {
    if b != [] {
      assert forall i :: 0 <= i < |b[1..]| ==> b[1..][i] == b[i + 1];
      BelowHead(b[1..], n, side, price);
    }
  }

  lemma {:induction false} BelowInsert(a: seq<SeenOrder>, o: SeenOrder, b: seq<SeenOrder>)
    requires forall i :: 0 <= i < |a| ==> a[i].oid != o.oid && !Better(o.side, o.price, a[i].price)
    requires forall i :: 0 <= i < |b| ==> b[i].oid != o.oid
    requires forall i :: 0 <= i < |b| && b[i].oid < o.oid ==> Better(o.side, o.price, b[i].price)
    ensures Below(a + [o] + b, o.oid + 1) == Enqueue(Below(a + [o] + b, o.oid), o)
  {
    if a == [] {
      assert a + [o] + b == [o] + b;
      assert ([o] + b)[1..] == b;
      BelowSame(b, o.oid);
      BelowHead(b, o.oid, o.side, o.price);
    } else {
      var rest := a[1..] + [o] + b;
      assert a + [o] + b == [a[0]] + rest;
      BelowInsert(a[1..], o, b);
      BelowCons(a[0], rest, o.oid);
      BelowCons(a[0], rest, o.oid + 1);
      EnqueueBehind(a[0], Below(rest, o.oid), o);
    }
  }

  lemma BelowCons(x: SeenOrder, rest: seq<SeenOrder>, n: nat)
    ensures Below([x] + rest, n) == if x.oid < n then [x] + Below(rest, n) else Below(rest, n)
  {
    assert ([x] + rest)[1..] == rest;
  }

  lemma EnqueueBehind(x: SeenOrder, rest: seq<SeenOrder>, o: SeenOrder)
    requires !Better(o.side, o.price, x.price)
    ensures Enqueue([x] + rest, o) == [x] + Enqueue(rest, o)
  {
    assert ([x] + rest)[1..] == rest;
  }

  /** Snapshots keep time priority: because arrival order within a level is ascending id, adding
      the order with the next id puts it exactly where the full book has it. */
  lemma BelowNext(side: Side, s: seq<SeenOrder>, a: seq<SeenOrder>, o: SeenOrder, b: seq<SeenOrder>)
    requires s == a + [o] + b
    requires GoodSeen(side, s)
    ensures Below(s, o.oid + 1) == Enqueue(Below(s, o.oid), o)
  {
    Surroundings(side, a, o, b);
    BelowInsert(a, o, b);
  }

  lemma Surroundings(side: Side, a: seq<SeenOrder>, o: SeenOrder, b: seq<SeenOrder>)
    requires GoodSeen(side, a + [o] + b)
    ensures o.side == side
    ensures forall i :: 0 <= i < |a| ==> a[i].oid != o.oid && !Better(side, o.price, a[i].price)
    ensures forall i :: 0 <= i < |b| ==> b[i].oid != o.oid
    ensures forall i :: 0 <= i < |b| && b[i].oid < o.oid ==> Better(side, o.price, b[i].price)
  {
    var s, k := a + [o] + b, |a|;
    assert s[k] == o;
    forall i | 0 <= i < |a|
      ensures a[i].oid != o.oid && !Better(side, o.price, a[i].price)
    {
      assert s[i] == a[i] && Ahead(side, s[i], s[k]) && s[i].key != s[k].key;
    }
    forall i | 0 <= i < |b|
      ensures b[i].oid != o.oid && (b[i].oid < o.oid ==> Better(side, o.price, b[i].price))
    {
      assert s[k + 1 + i] == b[i] && Ahead(side, s[k], s[k + 1 + i]) && s[k].key != s[k + 1 + i].key;
    }
  }

  function BelowView(v: View, n: nat): View {
    View(Below(v.bids, n), Below(v.asks, n))
  }

  lemma ListingStep(t: nat, m: Ledger, v: View, n: nat)
    requires GoodView(v) && Mirrors(t, m, v)
    ensures BelowView(v, n + 1) == if n in m then Apply(t, BelowView(v, n), m[n]) else BelowView(v, n)
  {
    hide Below, Apply;
    if Listed(v.bids, n) {
      var k :| 0 <= k < |v.bids| && v.bids[k].oid == n;
      assert !Listed(v.asks, n);
      ListingStepOn(t, m, v, BUY, k);
    } else if Listed(v.asks, n) {
      var k :| 0 <= k < |v.asks| && v.asks[k].oid == n;
      ListingStepOn(t, m, v, SELL, k);
    } else {
      BelowSame(v.bids, n);
      BelowSame(v.asks, n);
    }
  }

  lemma ListingStepOn(t: nat, m: Ledger, v: View, side: Side, k: nat)
    requires GoodView(v) && Mirrors(t, m, v) && IsTradeSide(side) && k < |v.On(side)|
    requires !Listed(v.On(Opposite(side)), v.On(side)[k].oid)
    ensures var n := v.On(side)[k].oid;
            n in m && BelowView(v, n + 1) == Apply(t, BelowView(v, n), m[n])
  {
    hide Below, Enqueue;
    var s := v.On(side);
    var o, n, w := s[k], s[k].oid, BelowView(v, s[k].oid);
    assert m[n] == Restated(t, o) && Announced(m[n]) == o;
    BelowSame(v.On(Opposite(side)), n);
    SplitAt(s, k);
    BelowNext(side, s, s[..k], o, s[k + 1..]);
    assert Apply(t, w, m[n]) == w.With(side, Enqueue(w.On(side), o));
  }

  lemma {:induction false} ListingRebuilds(t: nat, m: Ledger, v: View, n: nat)
    requires GoodView(v) && Mirrors(t, m, v)
    ensures ApplyAll(t, EMPTY_VIEW, Listing(m, n)) == BelowView(v, n)
  {
    hide Below, Apply, GoodView, Mirrors;
    if n == 0 {
      BelowNone(v.bids);
      BelowNone(v.asks);
    } else {
      ListingRebuilds(t, m, v, n - 1);
      ListingStep(t, m, v, n - 1);
      if n - 1 in m {
        ApplyOne(t, EMPTY_VIEW, Listing(m, n - 1), m[n - 1]);
      } else {
        assert Listing(m, n) == Listing(m, n - 1);
      }
    }
  }

  // ----- the whole snapshot -----

  /** Every entry of ledger `t` belongs to instrument `t`. */
  ghost predicate OnTicker(t: nat, m: Ledger) {
    forall oid :: oid in m ==> m[oid].ticker == t
  }

  lemma MirrorsOnTicker(t: nat, m: Ledger, v: View)
    requires Mirrors(t, m, v)
    ensures OnTicker(t, m)
  {
  }

  lemma {:induction false} ListingOfOther(t: nat, v: View, other: nat, m: Ledger, n: nat)
    requires OnTicker(other, m) && other != t
    ensures ApplyAll(t, v, Listing(m, n)) == v
  {
    if n > 0 {
      ListingOfOther(t, v, other, m, n - 1);
      if n - 1 in m {
        ApplyOne(t, v, Listing(m, n - 1), m[n - 1]);
      } else {
        assert Listing(m, n) == Listing(m, n - 1);
      }
    }
  }

  lemma ClearThenList(t: nat, v: View, n: nat, m: Ledger)
    requires OnTicker(n, m)
    ensures ApplyAll(t, v, [ClearUpdate(n)] + Listing(m, ME_MAX_ORDER_IDS))
         == if n == t then ApplyAll(t, EMPTY_VIEW, Listing(m, ME_MAX_ORDER_IDS)) else v
  {
    ApplyAppend(t, v, [ClearUpdate(n)], Listing(m, ME_MAX_ORDER_IDS));
    assert ApplyAll(t, v, [ClearUpdate(n)]) == Apply(t, v, ClearUpdate(n));
    if n != t {
      ListingOfOther(t, v, n, m, ME_MAX_ORDER_IDS);
    }
  }

  lemma {:induction false} BodyRebuilds(t: nat, v: View, ms: seq<Ledger>, n: nat)
    requires n <= |ms| && forall i :: 0 <= i < n ==> OnTicker(i, ms[i])
    ensures ApplyAll(t, v, Body(ms, n))
         == if t < n then ApplyAll(t, EMPTY_VIEW, Listing(ms[t], ME_MAX_ORDER_IDS)) else v
  {
    hide Listing, Apply;
    if n > 0 {
      BodyRebuilds(t, v, ms, n - 1);
      var tail := [ClearUpdate(n - 1)] + Listing(ms[n - 1], ME_MAX_ORDER_IDS);
      assert Body(ms, n) == Body(ms, n - 1) + tail;
      ApplyAppend(t, v, Body(ms, n - 1), tail);
      ClearThenList(t, ApplyAll(t, v, Body(ms, n - 1)), n - 1, ms[n - 1]);
    }
  }

  ghost predicate SmallIds(us: seq<Update>) {
    forall i :: 0 <= i < |us| && us[i].kind == ADD ==> us[i].oid < ME_MAX_ORDER_IDS
  }

  lemma {:induction false} SynthesizeSmall(t: nat, us: seq<Update>)
    requires SmallIds(us)
    ensures forall oid :: oid in Synthesize(t, us) ==> oid < ME_MAX_ORDER_IDS
    decreases |us|
  {
    if us != [] {
      assert forall i :: 0 <= i < |us| - 1 ==> us[..|us| - 1][i] == us[i];
      SynthesizeSmall(t, us[..|us| - 1]);
    }
  }

  /** A log the exchange can produce: listed instruments, order ids that fit the arrays, and legal
      for every instrument. */
  ghost predicate LegalLog(us: seq<Update>) {
    && SmallIds(us)
    && (forall i :: 0 <= i < |us| ==> us[i].ticker < ME_MAX_TICKERS)
    && forall t: nat :: t < ME_MAX_TICKERS ==> LegalFrom(t, EMPTY_VIEW, us)
  }

  lemma LegalLogPrefix(us: seq<Update>, n: nat)
    requires LegalLog(us) && n <= |us|
    ensures LegalLog(us[..n])
  {
    forall t: nat | t < ME_MAX_TICKERS
      ensures LegalFrom(t, EMPTY_VIEW, us[..n])
    {
      LegalPrefix(t, EMPTY_VIEW, us, n);
    }
  }

  lemma LegalLogKinds(us: seq<Update>)
    requires LegalLog(us)
    ensures forall i :: 0 <= i < |us| ==> us[i].kind in {ADD, MODIFY, REMOVE, TRADE}
  {
    forall i | 0 <= i < |us|
      ensures us[i].kind in {ADD, MODIFY, REMOVE, TRADE}
    {
      LegalPrefix(us[i].ticker, EMPTY_VIEW, us, i + 1);
      assert us[..i + 1][i] == us[i];
    }
  }

  /** A snapshot rebuilds the book. Whatever a client held before, replaying what lies between the
      two markers of the snapshot taken after `us` leaves it, for every instrument, with exactly
      the book that replaying `us` from the start gives: same levels, same queue order. */
  lemma SnapshotRebuildsBook(us: seq<Update>, t: nat, v: View)
    requires LegalLog(us) && t < ME_MAX_TICKERS
    ensures ApplyAll(t, v, Body(Ledgers(us), ME_MAX_TICKERS)) == Replay(t, us)
  {
    var ms := Ledgers(us);
    forall i: nat | i < ME_MAX_TICKERS
      ensures OnTicker(i, ms[i])
    {
      SynthesizeMirrors(i, us);
      MirrorsOnTicker(i, ms[i], Replay(i, us));
    }
    BodyRebuilds(t, v, ms, ME_MAX_TICKERS);
    SynthesizeMirrors(t, us);
    LegalReplayIsGood(t, us);
    SynthesizeSmall(t, us);
    ListingRebuilds(t, ms[t], Replay(t, us), ME_MAX_ORDER_IDS);
    BelowAll(Replay(t, us).bids, ME_MAX_ORDER_IDS);
    BelowAll(Replay(t, us).asks, ME_MAX_ORDER_IDS);
  }
}
