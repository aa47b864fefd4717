/** Orders named as the code names them. me_order_book.cpp:39 passes instrument and client to a
    constructor that takes them in the other order (me_order.hpp:28), so every resting order carries its
    instrument's id in place of its client's, and is entered in the order index under that name. */
module Misnaming {
  import opened Common
  import opened Ladder
  import opened Matching
  import opened BookInvariant

  /** A book and its order index, which holds for each name the market id of the order it points at.
      Orders of different clients can have the same name, so the index is no longer implied by the book. */
  datatype Indexed = Indexed(book: Book, index: map<OrderRef, nat>)

  const EMPTY_INDEXED := Indexed(EMPTY_BOOK, map[])

  function NameAsWritten(ticker: nat, coid: nat): OrderRef {
    OrderRef(ticker, coid)
  }

  function NamesOf(s: seq<BookOrder>): set<OrderRef> {
    set o | o in s :: o.key
  }

  /** What of a NEW comes to rest, under the name it is given. */
  function RestingAsWritten(b: Book, r: Request): Option<BookOrder> {
    var leaves := MatchAll(r.ticker, Incoming(b, r.ref, r.side, r.price, r.qty), b.On(Opposite(r.side))).leaves;
    if leaves == 0 then None
    else Some(Order(NameAsWritten(r.ticker, r.ref.coid), b.nextOid, r.side, r.price, leaves,
                    NextPriority(b.On(r.side), r.price)))
  }

  /** Every order that leaves takes the entry of its name with it, whatever that entry points at
      (me_order_book.cpp:186); an order that comes to rest overwrites it (me_order_book.cpp:103). */
  function AddAsWritten(s: Indexed, r: Request): Indexed {
    var b, opp := s.book, s.book.On(Opposite(r.side));
    var rest := MatchAll(r.ticker, Incoming(b, r.ref, r.side, r.price, r.qty), opp).rest;
    var b' := b.(nextOid := b.nextOid + 1).With(Opposite(r.side), rest);
    var index' := s.index - NamesOf(opp[..|opp| - |rest|]);
    match RestingAsWritten(b, r)
    case None => Indexed(b', index')
    case Some(o) => Indexed(b'.With(r.side, Enqueue(b.On(r.side), o)), index'[o.key := o.oid])
  }

  /** The side without the order of this market id. */
  function Without(s: seq<BookOrder>, oid: nat): seq<BookOrder> {
    if s == [] then [] else (if s[0].oid == oid then [] else [s[0]]) + Without(s[1..], oid)
  }

  /** A cancel takes whatever order the index points at. */
  function CancelAsWritten(s: Indexed, ref: OrderRef): Indexed {
    if ref !in s.index then s
    else
      var b, oid := s.book, s.index[ref];
      Indexed(b.(bids := Without(b.bids, oid), asks := Without(b.asks, oid)), s.index - {ref})
  }

  function ProcessAsWritten(s: Indexed, r: Request): Indexed {
    match r.kind
    case NEW => AddAsWritten(s, r)
    case CANCEL => CancelAsWritten(s, r.ref)
  }

  function RunAsWritten(s: Indexed, rs: seq<Request>): Indexed
    decreases |rs|
  {
    if rs == [] then s else ProcessAsWritten(RunAsWritten(s, rs[..|rs| - 1]), rs[|rs| - 1])
  }

  /** Requests for one instrument, each for a trade side. */
  ghost predicate AllOn(ticker: nat, rs: seq<Request>) {
    forall i :: 0 <= i < |rs| ==> On(ticker, rs[i])
  }

  predicate On(ticker: nat, r: Request) {
    r.ticker == ticker && IsTradeSide(r.side)
  }

  // ----- the orders of one client order id -----

  /** The market ids of the orders of a side that carry this client order id, whoever sent them. */
  function Held(s: seq<BookOrder>, coid: nat): seq<nat> {
    if s == [] then [] else (if s[0].key.coid == coid then [s[0].oid] else []) + Held(s[1..], coid)
  }

  /** The same orders with this client order id rest in both books. */
  predicate SameHeld(b: Book, b': Book, coid: nat) {
    Held(b.bids, coid) == Held(b'.bids, coid) && Held(b.asks, coid) == Held(b'.asks, coid)
  }

  lemma {:induction false} HeldAppend(a: seq<BookOrder>, b: seq<BookOrder>, coid: nat)
    ensures Held(a + b, coid) == Held(a, coid) + Held(b, coid)
  {
    if a == [] {
      assert a + b == b;
    } else {
      assert (a + b)[0] == a[0] && (a + b)[1..] == a[1..] + b;
      HeldAppend(a[1..], b, coid);
      Regroup(if a[0].key.coid == coid then [a[0].oid] else [], Held(a[1..], coid), Held(b, coid));
    }
  }

  lemma {:induction false} HeldEnqueue(s: seq<BookOrder>, o: BookOrder, coid: nat)
    ensures o.key.coid != coid ==> Held(Enqueue(s, o), coid) == Held(s, coid)
    ensures o.key.coid == coid ==> |Held(Enqueue(s, o), coid)| == |Held(s, coid)| + 1
    ensures forall x :: x in Enqueue(s, o) <==> x in s || x == o
  {
    if s == [] || Better(o.side, o.price, s[0].price) {
      assert ([o] + s)[1..] == s;
    } else {
      HeldEnqueue(s[1..], o, coid);
      assert ([s[0]] + Enqueue(s[1..], o))[1..] == Enqueue(s[1..], o);
    }
  }

  lemma {:induction false} HeldWithout(s: seq<BookOrder>, oid: nat, coid: nat)
    ensures |Held(Without(s, oid), coid)| <= |Held(s, coid)|
    ensures if exists x :: x in s && x.oid == oid && x.key.coid == coid
            then |Held(Without(s, oid), coid)| < |Held(s, coid)|
            else Held(Without(s, oid), coid) == Held(s, coid)
    ensures forall x :: x in Without(s, oid) <==> x in s && x.oid != oid
  {
    if s != [] {
      var w := Without(s[1..], oid);
      HeldWithout(s[1..], oid, coid);
      assert forall x :: x in s <==> x == s[0] || x in s[1..];
      if s[0].oid == oid {
        assert Without(s, oid) == w;
      } else {
        assert Without(s, oid)[1..] == w;
      }
    }
  }

  lemma {:induction false} HeldReduced(rest: seq<BookOrder>, s: seq<BookOrder>, coid: nat)
    requires |rest| == |s| && forall i :: 0 <= i < |s| ==> Reduced(rest[i], s[i])
    ensures Held(rest, coid) == Held(s, coid)
  {
    if s != [] {
      HeldReduced(rest[1..], s[1..], coid);
    }
  }

  lemma {:induction false} HeldNone(s: seq<BookOrder>, coid: nat)
    ensures Held(s, coid) == [] <==> forall x :: x in s ==> x.key.coid != coid
  {
    if s != [] {
      HeldNone(s[1..], coid);
      assert s == [s[0]] + s[1..];
    }
  }

  // ----- what every step keeps -----

  /** A live order of this side, named after the instrument, older than `next`; and an entry that points
      at it is the entry of its name. */
  ghost predicate Filed(ticker: nat, index: map<OrderRef, nat>, next: nat, side: Side, o: BookOrder) {
    && o.side == side && o.qty > 0 && o.key.client == ticker && o.oid < next
    && forall k :: k in index && index[k] == o.oid ==> o.key == k
  }

  ghost predicate AllFiled(ticker: nat, index: map<OrderRef, nat>, next: nat, side: Side, s: seq<BookOrder>) {
    forall o :: o in s ==> Filed(ticker, index, next, side, o)
  }

  /** An order of this name and market id is on the side. */
  ghost predicate HasNamed(s: seq<BookOrder>, name: OrderRef, oid: nat) {
    exists o :: o in s && o.key == name && o.oid == oid
  }

  ghost predicate Tidy(ticker: nat, s: Indexed) {
    && AllFiled(ticker, s.index, s.book.nextOid, BUY, s.book.bids)
    && AllFiled(ticker, s.index, s.book.nextOid, SELL, s.book.asks)
    && forall k :: k in s.index ==>
         && k.client == ticker && s.index[k] < s.book.nextOid
         && (HasNamed(s.book.bids, k, s.index[k]) || HasNamed(s.book.asks, k, s.index[k]))
  }

  /** How a step from `s` to `s'` treats the entry of client order id `coid`: it leaves it alone if the
      same orders of that id rest afterwards, and otherwise drops it or points it at an order that is
      new. */
  ghost predicate Treats(ticker: nat, s: Indexed, s': Indexed, coid: nat) {
    var name := NameAsWritten(ticker, coid);
    if SameHeld(s.book, s'.book, coid) then
      if name in s.index then name in s'.index && s'.index[name] == s.index[name] else name !in s'.index
    else name !in s'.index || s'.index[name] == s.book.nextOid
  }

  lemma FiledLive(ticker: nat, s: Indexed, side: Side)
    requires Tidy(ticker, s) && IsTradeSide(side)
    ensures AllFiled(ticker, s.index, s.book.nextOid, side, s.book.On(side)) && Live(side, s.book.On(side))
  {
    var xs := s.book.On(side);
    forall i | 0 <= i < |xs|
      ensures xs[i].side == side && xs[i].qty > 0
    {
      assert xs[i] in xs;
    }
  }

  /** What matching leaves of the opposite side, and what it takes. */
  lemma MatchHeld(t: nat, inc: BookOrder, opp: seq<BookOrder>, coid: nat)
    requires Live(Opposite(inc.side), opp)
    ensures var rest := MatchAll(t, inc, opp).rest;
            Held(opp, coid) == Held(opp[..|opp| - |rest|], coid) + Held(rest, coid)
  {
    hide MatchAll;
    var rest := MatchAll(t, inc, opp).rest;
    MatchLeavesRemainder(t, inc, opp);
    var d := |opp| - |rest|;
    HeldReduced(rest, opp[d..], coid);
    HeldAppend(opp[..d], opp[d..], coid);
    assert opp == opp[..d] + opp[d..];
  }

  /** An order that matching does not take is still there, if perhaps reduced. */
  lemma MatchKeeps(t: nat, inc: BookOrder, opp: seq<BookOrder>)
    requires Live(Opposite(inc.side), opp)
    ensures var rest := MatchAll(t, inc, opp).rest;
            && (forall x :: x in rest ==> exists y :: y in opp && Reduced(x, y))
            && forall y :: y in opp && y !in opp[..|opp| - |rest|] ==> HasNamed(rest, y.key, y.oid)
  {
    hide MatchAll;
    var rest := MatchAll(t, inc, opp).rest;
    MatchLeavesRemainder(t, inc, opp);
    var d := |opp| - |rest|;
    forall x | x in rest
      ensures exists y :: y in opp && Reduced(x, y)
    {
      var i :| 0 <= i < |rest| && rest[i] == x;
      assert Reduced(rest[i], opp[d + i]) && opp[d + i] in opp;
    }
    forall y | y in opp && y !in opp[..d]
      ensures HasNamed(rest, y.key, y.oid)
    {
      var i :| 0 <= i < |opp[d..]| && opp[d..][i] == y;
      assert Reduced(rest[i], opp[d + i]) && rest[i] in rest;
    }
  }

  lemma RestFiled(ticker: nat, index: map<OrderRef, nat>, next: nat, side: Side, opp: seq<BookOrder>,
                  rest: seq<BookOrder>, index': map<OrderRef, nat>)
    requires AllFiled(ticker, index, next, side, opp) && forall x :: x in rest ==> exists y :: y in opp && Reduced(x, y)
    requires forall k :: k in index' ==> (k in index && index'[k] == index[k]) || index'[k] == next
    ensures AllFiled(ticker, index', next + 1, side, rest)
  {
    forall x | x in rest
      ensures Filed(ticker, index', next + 1, side, x)
    {
      var y :| y in opp && Reduced(x, y);
      assert Filed(ticker, index, next, side, y);
    }
  }

  /** The two sides and the index after a NEW. */
  lemma AddActs(s: Indexed, r: Request)
    requires IsTradeSide(r.side)
    ensures var b, opp := s.book, s.book.On(Opposite(r.side));
            var rest, s' := MatchAll(r.ticker, Incoming(b, r.ref, r.side, r.price, r.qty), opp).rest,
                AddAsWritten(s, r);
            && s'.book.nextOid == b.nextOid + 1 && s'.book.On(Opposite(r.side)) == rest
            && var index' := s.index - NamesOf(opp[..|opp| - |rest|]);
               match RestingAsWritten(b, r)
               case None => s'.book.On(r.side) == b.On(r.side) && s'.index == index'
               case Some(o) => s'.book.On(r.side) == Enqueue(b.On(r.side), o) && s'.index == index'[o.key := o.oid]
                               && o.side == r.side && o.oid == b.nextOid && o.qty > 0
                               && o.key == NameAsWritten(r.ticker, r.ref.coid)
  {
    hide MatchAll, Enqueue, NamesOf;
  }

  lemma AddKeepsFiled(ticker: nat, s: Indexed, r: Request)
    requires Tidy(ticker, s) && On(ticker, r)
    ensures var s' := AddAsWritten(s, r);
            && AllFiled(ticker, s'.index, s'.book.nextOid, r.side, s'.book.On(r.side))
            && AllFiled(ticker, s'.index, s'.book.nextOid, Opposite(r.side), s'.book.On(Opposite(r.side)))
  {
    hide MatchAll, Enqueue, HasNamed, AllFiled, AddAsWritten, RestingAsWritten, NamesOf;
    AddActs(s, r);
    var b, next, s' := s.book, s.book.nextOid, AddAsWritten(s, r);
    var own, opp := b.On(r.side), b.On(Opposite(r.side));
    FiledLive(ticker, s, r.side);
    FiledLive(ticker, s, Opposite(r.side));
    MatchKeeps(ticker, Incoming(b, r.ref, r.side, r.price, r.qty), opp);
    RestFiled(ticker, s.index, next, Opposite(r.side), opp, s'.book.On(Opposite(r.side)), s'.index);
    AllReduced(ticker, s.index, next, r.side, own);
    RestFiled(ticker, s.index, next, r.side, own, own, s'.index);
    match RestingAsWritten(b, r)
    case None =>
    case Some(o) =>
      HeldEnqueue(own, o, 0);
      EnqueueFiled(ticker, s, s'.index, own, o);
  }

  lemma AllReduced(ticker: nat, index: map<OrderRef, nat>, next: nat, side: Side, s: seq<BookOrder>)
    requires AllFiled(ticker, index, next, side, s)
    ensures forall x :: x in s ==> exists y :: y in s && Reduced(x, y)
  {
    forall x | x in s
      ensures Reduced(x, x)
    {
      assert Filed(ticker, index, next, side, x);
    }
  }

  lemma EnqueueFiled(ticker: nat, s: Indexed, index': map<OrderRef, nat>, own: seq<BookOrder>, o: BookOrder)
    requires Tidy(ticker, s) && AllFiled(ticker, index', s.book.nextOid + 1, o.side, own)
    requires o.key.client == ticker && o.oid == s.book.nextOid && o.qty > 0
    requires forall k :: k in index' ==> (k in s.index && index'[k] == s.index[k]) || k == o.key
    ensures AllFiled(ticker, index', s.book.nextOid + 1, o.side, Enqueue(own, o))
  {
    hide HasNamed;
    HeldEnqueue(own, o, 0);
  }

  /** Every entry of the index still points at a resting order of its name. */
  lemma AddKeepsRests(ticker: nat, s: Indexed, r: Request, k: OrderRef)
    requires Tidy(ticker, s) && On(ticker, r) && k in AddAsWritten(s, r).index
    ensures var s' := AddAsWritten(s, r);
            HasNamed(s'.book.bids, k, s'.index[k]) || HasNamed(s'.book.asks, k, s'.index[k])
  {
    hide MatchAll, Enqueue, AllFiled, AddAsWritten, RestingAsWritten;
    AddActs(s, r);
    var b, s' := s.book, AddAsWritten(s, r);
    var own, opp := b.On(r.side), b.On(Opposite(r.side));
    FiledLive(ticker, s, Opposite(r.side));
    MatchKeeps(ticker, Incoming(b, r.ref, r.side, r.price, r.qty), opp);
    if RestingAsWritten(b, r).Some? {
      var o := RestingAsWritten(b, r).value;
      HeldEnqueue(own, o, 0);
      assert o in s'.book.On(r.side);
    }
    if RestingAsWritten(b, r).None? || k != RestingAsWritten(b, r).value.key {
      assert k in s.index && s'.index[k] == s.index[k];
      if HasNamed(opp, k, s.index[k]) {
        var y :| y in opp && y.key == k && y.oid == s.index[k];
        assert HasNamed(s'.book.On(Opposite(r.side)), y.key, y.oid);
      } else {
        var y :| y in own && y.key == k && y.oid == s.index[k];
        assert y in s'.book.On(r.side);
      }
    }
  }

  lemma AddKeepsTidy(ticker: nat, s: Indexed, r: Request)
    requires Tidy(ticker, s) && On(ticker, r)
    ensures Tidy(ticker, AddAsWritten(s, r))
  {
    hide MatchAll, Enqueue, AllFiled, HasNamed;
    AddKeepsFiled(ticker, s, r);
    forall k | k in AddAsWritten(s, r).index
      ensures var s' := AddAsWritten(s, r);
              HasNamed(s'.book.bids, k, s'.index[k]) || HasNamed(s'.book.asks, k, s'.index[k])
    {
      AddKeepsRests(ticker, s, r, k);
    }
  }

  lemma AddTreats(ticker: nat, s: Indexed, r: Request, coid: nat)
    requires Tidy(ticker, s) && On(ticker, r)
    ensures Treats(ticker, s, AddAsWritten(s, r), coid)
  {
    hide MatchAll, Enqueue, Tidy, AddAsWritten, RestingAsWritten;
    AddActs(s, r);
    var b, opp := s.book, s.book.On(Opposite(r.side));
    var rest := MatchAll(r.ticker, Incoming(b, r.ref, r.side, r.price, r.qty), opp).rest;
    var gone := opp[..|opp| - |rest|];
    FiledLive(ticker, s, Opposite(r.side));
    MatchHeld(ticker, Incoming(b, r.ref, r.side, r.price, r.qty), opp, coid);
    HeldNone(gone, coid);
    assert NameAsWritten(ticker, coid) in NamesOf(gone) <==> Held(gone, coid) != [] by {
      forall x | x in gone
        ensures x.key.client == ticker
      {
        assert x in opp && Filed(ticker, s.index, b.nextOid, Opposite(r.side), x);
      }
    }
    match RestingAsWritten(b, r)
    case None =>
    case Some(o) => HeldEnqueue(b.On(r.side), o, coid);
  }

  lemma CancelTreats(ticker: nat, s: Indexed, ref: OrderRef, coid: nat)
    requires Tidy(ticker, s)
    ensures Treats(ticker, s, CancelAsWritten(s, ref), coid)
  {
    hide AllFiled;
    if ref in s.index {
      var b, oid := s.book, s.index[ref];
      HeldWithout(b.bids, oid, coid);
      HeldWithout(b.asks, oid, coid);
      if ref != NameAsWritten(ticker, coid) {
        NamedBy(ticker, s, ref);
      }
    }
  }

  /** All orders that an entry points at carry its name. */
  lemma NamedBy(ticker: nat, s: Indexed, k: OrderRef)
    requires Tidy(ticker, s) && k in s.index
    ensures forall o :: (o in s.book.bids || o in s.book.asks) && o.oid == s.index[k] ==> o.key == k
  {
    forall o | (o in s.book.bids || o in s.book.asks) && o.oid == s.index[k]
      ensures o.key == k
    {
      assert Filed(ticker, s.index, s.book.nextOid, if o in s.book.bids then BUY else SELL, o);
    }
  }

  lemma CancelKeepsTidy(ticker: nat, s: Indexed, ref: OrderRef)
    requires Tidy(ticker, s)
    ensures Tidy(ticker, CancelAsWritten(s, ref))
  {
    if ref in s.index {
      var b, oid := s.book, s.index[ref];
      HeldWithout(b.bids, oid, 0);
      HeldWithout(b.asks, oid, 0);
      NamedBy(ticker, s, ref);
      var s' := CancelAsWritten(s, ref);
      forall k | k in s'.index
        ensures HasNamed(s'.book.bids, k, s.index[k]) || HasNamed(s'.book.asks, k, s.index[k])
      {
        var o :| (o in b.bids || o in b.asks) && o.key == k && o.oid == s.index[k];
        assert o.oid != oid;
      }
    }
  }

  lemma StepTreats(ticker: nat, s: Indexed, r: Request, coid: nat)
    requires Tidy(ticker, s) && On(ticker, r)
    ensures Tidy(ticker, ProcessAsWritten(s, r)) && Treats(ticker, s, ProcessAsWritten(s, r), coid)
    ensures s.book.nextOid <= ProcessAsWritten(s, r).book.nextOid
  {
    hide Tidy, Treats, MatchAll, Enqueue;
    match r.kind
    case NEW =>
      AddKeepsTidy(ticker, s, r);
      AddTreats(ticker, s, r, coid);
    case CANCEL =>
      CancelKeepsTidy(ticker, s, r.ref);
      CancelTreats(ticker, s, r.ref, coid);
  }

  // ----- whom a cancel finds -----

  /** The same orders of this client order id rest as in `s`, after every number of requests. */
  ghost predicate Undisturbed(s: Indexed, rs: seq<Request>, coid: nat) {
    forall k :: 0 <= k <= |rs| ==> SameHeld(RunAsWritten(s, rs[..k]).book, s.book, coid)
  }

  lemma {:induction false} RunTreats(ticker: nat, s: Indexed, rs: seq<Request>, coid: nat, oid: nat)
    requires Tidy(ticker, s) && AllOn(ticker, rs)
    requires NameAsWritten(ticker, coid) in s.index && s.index[NameAsWritten(ticker, coid)] == oid
    ensures var s' := RunAsWritten(s, rs);
            && Tidy(ticker, s') && oid < s.book.nextOid <= s'.book.nextOid
            && (NameAsWritten(ticker, coid) in s'.index && s'.index[NameAsWritten(ticker, coid)] == oid
                <==> Undisturbed(s, rs, coid))
    decreases |rs|
  {
    hide Tidy, ProcessAsWritten, SameHeld;
    IndexBelow(ticker, s, NameAsWritten(ticker, coid));
    if rs == [] {
      assert SameHeld(s.book, s.book, coid) by { Same(s.book, s.book, s.book, coid); }
      assert rs[..0] == [];
    } else {
      var n := |rs| - 1;
      RunTreats(ticker, s, rs[..n], coid, oid);
      var p := RunAsWritten(s, rs[..n]);
      StepTreats(ticker, p, rs[n], coid);
      assert rs[..|rs|] == rs && forall k :: 0 <= k <= n ==> rs[..n][..k] == rs[..k];
      assert Undisturbed(s, rs, coid) <==>
             Undisturbed(s, rs[..n], coid) && SameHeld(RunAsWritten(s, rs).book, s.book, coid);
      assert rs[..n][..n] == rs[..n];
      assert Undisturbed(s, rs[..n], coid) ==> SameHeld(p.book, s.book, coid);
      Same(p.book, RunAsWritten(s, rs).book, s.book, coid);
    }
  }

  lemma IndexBelow(ticker: nat, s: Indexed, k: OrderRef)
    requires Tidy(ticker, s) && k in s.index
    ensures k.client == ticker && s.index[k] < s.book.nextOid
  {
  }

  lemma Same(b: Book, b': Book, b0: Book, coid: nat)
    ensures SameHeld(b0, b0, coid)
    ensures SameHeld(b, b0, coid) ==> (SameHeld(b, b', coid) <==> SameHeld(b', b0, coid))
  {
  }

  lemma {:induction false} RunIsTidy(ticker: nat, rs: seq<Request>)
    requires AllOn(ticker, rs)
    ensures Tidy(ticker, RunAsWritten(EMPTY_INDEXED, rs))
    decreases |rs|
  {
    hide ProcessAsWritten;
    if rs != [] {
      RunIsTidy(ticker, rs[..|rs| - 1]);
      StepTreats(ticker, RunAsWritten(EMPTY_INDEXED, rs[..|rs| - 1]), rs[|rs| - 1], 0);
    }
  }

  /** The market id of the order that a cancel of `ref` takes. */
  function TakenBy(s: Indexed, ref: OrderRef): Option<nat> {
    if ref in s.index then Some(s.index[ref]) else None
  }

  /** Whom a cancel finds. After any requests an order comes to rest, and any more requests follow. A
      cancel by its sender then finds that very order if and only if the sender's client id happens to be
      the instrument's id and no order with the same client order id, whoever sent it, has come to rest
      or left since. */
  lemma CancelableAsWritten(ticker: nat, before: seq<Request>, r: Request, later: seq<Request>)
    requires AllOn(ticker, before) && On(ticker, r) && AllOn(ticker, later) && r.kind == NEW
    requires RestingAsWritten(RunAsWritten(EMPTY_INDEXED, before).book, r).Some?
    ensures var s := RunAsWritten(EMPTY_INDEXED, before);
            TakenBy(RunAsWritten(AddAsWritten(s, r), later), r.ref) == Some(s.book.nextOid)
            <==> r.ref.client == ticker && Undisturbed(AddAsWritten(s, r), later, r.ref.coid)
  {
    hide Tidy, Undisturbed;
    var s := RunAsWritten(EMPTY_INDEXED, before);
    RunIsTidy(ticker, before);
    AddKeepsTidy(ticker, s, r);
    var s' := AddAsWritten(s, r);
    RunTreats(ticker, s', later, r.ref.coid, s.book.nextOid);
    if r.ref in RunAsWritten(s', later).index {
      IndexBelow(ticker, RunAsWritten(s', later), r.ref);
    }
  }

  /** The only resting order with this client order id is order `oid` of this side. */
  predicate Alone(b: Book, side: Side, coid: nat, oid: nat) {
    Held(b.On(side), coid) == [oid] && Held(b.On(Opposite(side)), coid) == []
  }

  /** As long as no other order with the same client order id rests, the instrument's id alone decides. */
  lemma AloneIsCancelable(ticker: nat, before: seq<Request>, r: Request, later: seq<Request>)
    requires AllOn(ticker, before) && On(ticker, r) && AllOn(ticker, later) && r.kind == NEW
    requires RestingAsWritten(RunAsWritten(EMPTY_INDEXED, before).book, r).Some?
    requires var s := RunAsWritten(EMPTY_INDEXED, before);
             forall k :: 0 <= k <= |later| ==>
               Alone(RunAsWritten(AddAsWritten(s, r), later[..k]).book, r.side, r.ref.coid, s.book.nextOid)
    ensures var s := RunAsWritten(EMPTY_INDEXED, before);
            TakenBy(RunAsWritten(AddAsWritten(s, r), later), r.ref) == Some(s.book.nextOid) <==> r.ref.client == ticker
  {
    hide Held, AddAsWritten, RestingAsWritten, TakenBy;
    var s := RunAsWritten(EMPTY_INDEXED, before);
    var s' := AddAsWritten(s, r);
    assert later[..0] == [] && Alone(RunAsWritten(s', later[..0]).book, r.side, r.ref.coid, s.book.nextOid);
    assert Undisturbed(s', later, r.ref.coid);
    CancelableAsWritten(ticker, before, r, later);
  }

  /** A collision. On instrument 0 client 0 rests order 5, and then client 1, which numbers its own
      orders, rests its order 5 in front of it. A cancel of client 0 takes the order of client 1. Once
      that order has been filled by client 2 instead, client 0's is the only one with the id 5, and the
      cancel is refused. */
  lemma CollisionAsWritten(first: Request, second: Request, third: Request)
    requires first == Request(NEW, OrderRef(0, 5), 0, BUY, 10, 1)
    requires second == Request(NEW, OrderRef(1, 5), 0, BUY, 11, 7)
    requires third == Request(NEW, OrderRef(2, 9), 0, SELL, 11, 7)
    ensures var both := AddAsWritten(AddAsWritten(EMPTY_INDEXED, first), second);
            && Held(both.book.bids, 5) == [2, 1] && TakenBy(both, first.ref) == Some(2)
            && Held(CancelAsWritten(both, first.ref).book.bids, 5) == [1]
            && Held(AddAsWritten(both, third).book.bids, 5) == [1]
            && TakenBy(AddAsWritten(both, third), first.ref) == None
  {
    hide AddAsWritten, Held;
    var o, q := Order(OrderRef(0, 5), 1, BUY, 10, 1, 1), Order(OrderRef(0, 5), 2, BUY, 11, 7, 1);
    FirstRests(first);
    SecondRests(Indexed(Book([o], [], 2), map[OrderRef(0, 5) := 1]), second, o);
    ThirdFills(Indexed(Book([q, o], [], 3), map[OrderRef(0, 5) := 2]), third, q, o);
    HeldPair(q, o);
  }

  lemma FirstRests(r: Request)
    requires r == Request(NEW, OrderRef(0, 5), 0, BUY, 10, 1)
    ensures AddAsWritten(EMPTY_INDEXED, r)
         == Indexed(Book([Order(OrderRef(0, 5), 1, BUY, 10, 1, 1)], [], 2), map[OrderRef(0, 5) := 1])
  {
    assert NamesOf([]) == {};
  }

  lemma SecondRests(s: Indexed, r: Request, o: BookOrder)
    requires s.book == Book([o], [], 2) && o.price == 10 && s.index == map[OrderRef(0, 5) := 1]
    requires r == Request(NEW, OrderRef(1, 5), 0, BUY, 11, 7)
    ensures AddAsWritten(s, r)
         == Indexed(Book([Order(OrderRef(0, 5), 2, BUY, 11, 7, 1), o], [], 3), map[OrderRef(0, 5) := 2])
  {
    assert [o][..0] == [] && NextPriority([o], 11) == 1 && NamesOf([]) == {};
    assert RestingAsWritten(s.book, r) == Some(Order(OrderRef(0, 5), 2, BUY, 11, 7, 1));
  }

  lemma ThirdFills(s: Indexed, r: Request, q: BookOrder, o: BookOrder)
    requires s.book == Book([q, o], [], 3) && q.key == OrderRef(0, 5) && q.price == 11 && q.qty == 7
    requires r == Request(NEW, OrderRef(2, 9), 0, SELL, 11, 7)
    ensures AddAsWritten(s, r).book.bids == [o] && OrderRef(0, 5) !in AddAsWritten(s, r).index
  {
    hide FillPair, FillUpdates;
    var inc := Incoming(s.book, r.ref, SELL, 11, 7);
    assert [q, o][1..] == [o];
    assert MatchAll(0, inc.(qty := 0), [o]).rest == [o];
    assert MatchAll(0, inc, [q, o]).rest == [o] && MatchAll(0, inc, [q, o]).leaves == 0;
    assert [q, o][..1] == [q] && q in [q];
  }

  lemma HeldPair(q: BookOrder, o: BookOrder)
    requires q.key.coid == o.key.coid == 5 && q.oid == 2 && o.oid == 1
    ensures Held([q, o], 5) == [2, 1] && Held([o], 5) == [1] && Held(Without([q, o], 2), 5) == [1]
  {
    assert [q, o][1..] == [o] && [o][1..] == [];
    assert Held([o], 5) == [1] + Held([], 5);
    assert Held([q, o], 5) == [2] + Held([o], 5);
    assert Without([q, o], 2) == [] + Without([o], 2) && Without([o], 2) == [o] + Without([], 2);
  }
}
