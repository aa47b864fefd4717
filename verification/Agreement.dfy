/** What the client believes about one order slot against the truth: its requests still on the way,
    the responses still on the way back, and what rests at the exchange. */
module Agreement {
  import opened Common
  import opened Matching
  import opened ClientOrders
  import opened ClientEffect

  /** From quantity `qty` the pending responses `p` tell, fill by fill, how the order got to where it
      is now: `rests` if it still rests, nothing if it was filled or cancelled. */
  ghost predicate Working(ref: OrderRef, o: OMOrder, qty: nat, p: seq<Response>, rests: seq<BookOrder>)
    decreases |p|
  {
    if p == [] then qty > 0 && Rests(rests, ref, o.side, o.price, qty)
    else
      && p[0].ref == ref
      && match p[0].kind
         case FILLED =>
           && p[0].execQty > 0 && p[0].execQty + p[0].leavesQty == qty
           && (if p[0].leavesQty == 0 then p[1..] == [] && rests == []
               else Working(ref, o, p[0].leavesQty, p[1..], rests))
         case CANCELED => p[1..] == [] && rests == []
         case ACCEPTED => false
         case CANCEL_REJECTED => false
  }

  ghost predicate NoCancel(p: seq<Response>) {
    forall i :: 0 <= i < |p| ==> p[i].kind != CANCELED
  }

  /** A NEW on its way; at most one cancel of an earlier order, overtaken by its last fill, goes before. */
  ghost predicate OnItsWay(client: nat, o: OMOrder, asked: seq<Request>) {
    || asked == [NewRequest(client, o)]
    || (|asked| == 2 && asked[0].kind == CANCEL && asked[0].ref.coid < o.id && asked[1] == NewRequest(client, o))
  }

  /** The slot `o`, the requests `asked` and responses `p` on their way, and the client's resting orders
      fit together. */
  ghost predicate Agree(client: nat, o: OMOrder, asked: seq<Request>, p: seq<Response>, rests: seq<BookOrder>) {
    var ref := OrderRef(client, o.id);
    match o.state
    case NEVER_USED => p == [] && rests == [] && asked == []
    case DEAD => p == [] && rests == [] && (asked == [] || (|asked| == 1 && asked[0].kind == CANCEL))
    case PENDING_NEW =>
      || (p == [] && rests == [] && OnItsWay(client, o, asked))
      || (asked == [] && p != [] && p[0].kind == ACCEPTED && p[0].ref == ref
          && (if o.qty == 0 then p[1..] == [] && rests == []
              else NoCancel(p[1..]) && Working(ref, o, o.qty, p[1..], rests)))
    case LIVE =>
      asked == [] && (if o.qty == 0 then p == [] && rests == [] else NoCancel(p) && Working(ref, o, o.qty, p, rests))
    case PENDING_CANCEL =>
      if o.qty == 0 then
        // An order of quantity zero never rests, and the refusal of its cancel does not reach the slot.
        p == [] && rests == [] && (asked == [] || (|asked| == 1 && asked[0].kind == CANCEL && asked[0].ref == ref))
      else
        && Working(ref, o, o.qty, p, rests)
        && (if asked == [] then rests == [] && p != []
            else |asked| == 1 && asked[0].kind == CANCEL && asked[0].ref == ref && NoCancel(p))
  }

  // ----- facts -----

  lemma {:induction false} WorkingRests(ref: OrderRef, o: OMOrder, qty: nat, p: seq<Response>, rests: seq<BookOrder>)
    requires Working(ref, o, qty, p, rests)
    ensures qty > 0 || (p != [] && p[0].kind == CANCELED)
    ensures rests != [] ==> |rests| == 1 && rests[0].key == ref && NoCancel(p)
    decreases |p|
  {
    if p != [] && p[0].kind == FILLED && p[0].leavesQty > 0 {
      WorkingRests(ref, o, p[0].leavesQty, p[1..], rests);
      assert p == [p[0]] + p[1..];
    }
  }

  /** A client has at most one order resting for a slot, and it is the slot's. */
  lemma AtMostOne(client: nat, o: OMOrder, asked: seq<Request>, p: seq<Response>, rests: seq<BookOrder>)
    requires Agree(client, o, asked, p, rests)
    ensures |rests| <= 1
    ensures rests != [] ==> rests[0].key == OrderRef(client, o.id) && !o.Idle()
  {
    var ref := OrderRef(client, o.id);
    match o.state
    case NEVER_USED =>
    case DEAD =>
    case PENDING_NEW =>
      if asked == [] && o.qty > 0 {
        WorkingRests(ref, o, o.qty, p[1..], rests);
      }
    case LIVE =>
      if o.qty > 0 {
        WorkingRests(ref, o, o.qty, p, rests);
      }
    case PENDING_CANCEL =>
      if o.qty > 0 {
        WorkingRests(ref, o, o.qty, p, rests);
      }
  }

  /** With nothing on its way in either direction the slot tells the truth, unless it holds an order of
      quantity zero. */
  lemma DrainedMeansTrue(client: nat, o: OMOrder, rests: seq<BookOrder>)
    requires Agree(client, o, [], [], rests)
    ensures o.Idle() || o.state == LIVE || (o.state == PENDING_CANCEL && o.qty == 0)
    ensures o.Idle() || o.qty == 0 ==> rests == []
    ensures o.state == LIVE && o.qty > 0 ==>
              && |rests| == 1 && rests[0].key == OrderRef(client, o.id) && rests[0].side == o.side
              && rests[0].price == o.price && rests[0].qty == o.qty
  {
  }

  // ----- the client acts -----

  lemma SendNew(client: nat, o: OMOrder, asked: seq<Request>, p: seq<Response>, rests: seq<BookOrder>, o': OMOrder)
    requires Agree(client, o, asked, p, rests) && o.Idle() && o'.state == PENDING_NEW
    requires forall i :: 0 <= i < |asked| ==> asked[i].ref.coid < o'.id
    ensures Agree(client, o', asked + [NewRequest(client, o')], p, rests)
  {
    assert OnItsWay(client, o', asked + [NewRequest(client, o')]);
  }

  lemma SendCancel(client: nat, o: OMOrder, asked: seq<Request>, p: seq<Response>, rests: seq<BookOrder>)
    requires Agree(client, o, asked, p, rests) && o.state == LIVE
    ensures Agree(client, o.(state := PENDING_CANCEL), asked + [CancelRequest(client, o)], p, rests)
  {
    if o.qty > 0 {
      SameOrder(OrderRef(client, o.id), o, o.(state := PENDING_CANCEL), o.qty, p, rests);
    }
  }

  lemma {:induction false} SameOrder(ref: OrderRef, o: OMOrder, o': OMOrder, qty: nat, p: seq<Response>,
          rests: seq<BookOrder>)
    requires Working(ref, o, qty, p, rests) && o'.side == o.side && o'.price == o.price
    ensures Working(ref, o', qty, p, rests)
    decreases |p|
  {
    if p != [] && p[0].kind == FILLED && p[0].leavesQty > 0 {
      SameOrder(ref, o, o', p[0].leavesQty, p[1..], rests);
    }
  }

  /** The slot hears the oldest response. A fill it hears of is for an open order and leaves what the
      slot had minus what was traded. */
  lemma HearResponse(client: nat, o: OMOrder, asked: seq<Request>, p: seq<Response>, rests: seq<BookOrder>)
    requires Agree(client, o, asked, p, rests) && p != []
    ensures Agree(client, UpdateSlot(o, p[0]), asked, p[1..], rests)
    ensures p[0].kind == FILLED ==> !o.Idle() && p[0].execQty + p[0].leavesQty == o.qty && p[0].execQty > 0
    ensures p[0].kind == ACCEPTED ==> !o.Idle()
  {
    var ref, r := OrderRef(client, o.id), p[0];
    match r.kind
    case ACCEPTED =>
      if o.qty > 0 {
        SameOrder(ref, o, UpdateSlot(o, r), o.qty, p[1..], rests);
      }
    case FILLED =>
      if r.leavesQty > 0 {
        SameOrder(ref, o, UpdateSlot(o, r), r.leavesQty, p[1..], rests);
        if rests == [] && asked == [] && o.state == PENDING_CANCEL {
          assert p[1..] != [];
        }
      }
    case CANCELED =>
    case CANCEL_REJECTED =>
  }

  // ----- the exchange acts -----

  lemma {:induction false} WorkingHit(ref: OrderRef, o: OMOrder, qty: nat, p: seq<Response>, rests: seq<BookOrder>,
                                      told: seq<Response>, later: seq<BookOrder>)
    requires Working(ref, o, qty, p, rests) && Hit(rests, told, later) && told != []
    ensures Working(ref, o, qty, p + told, later) && NoCancel(told)
    decreases |p|
  {
    if p == [] {
      assert p + told == told && told[1..] == [];
      assert FillsTo(rests[0].qty, told, told[0].leavesQty, rests[0].key);
    } else {
      assert (p + told)[0] == p[0] && (p + told)[1..] == p[1..] + told;
      if p[0].kind == FILLED && p[0].leavesQty > 0 {
        WorkingHit(ref, o, p[0].leavesQty, p[1..], rests, told, later);
      }
    }
  }

  /** The slot's resting order is hit, or not, by somebody's incoming order. */
  lemma GetHit(client: nat, o: OMOrder, asked: seq<Request>, p: seq<Response>, rests: seq<BookOrder>,
               told: seq<Response>, later: seq<BookOrder>)
    requires Agree(client, o, asked, p, rests) && Hit(rests, told, later)
    ensures Agree(client, o, asked, p + told, later)
  {
    if told == [] {
      assert p + told == p;
    } else {
      AtMostOne(client, o, asked, p, rests);
      if o.state == PENDING_NEW {
        WorkingHit(OrderRef(client, o.id), o, o.qty, p[1..], rests, told, later);
        assert (p + told)[1..] == p[1..] + told;
      } else {
        WorkingHit(OrderRef(client, o.id), o, o.qty, p, rests, told, later);
      }
    }
  }

  /** The next request served for the slot is a NEW: nothing of the client rests there. */
  lemma NextIsNew(client: nat, o: OMOrder, asked: seq<Request>, p: seq<Response>, rests: seq<BookOrder>)
    requires Agree(client, o, asked, p, rests) && asked != [] && asked[0].kind == NEW
    ensures o.state == PENDING_NEW && asked == [NewRequest(client, o)] && p == [] && rests == []
  {
  }

  lemma {:induction false} FillsWork(ref: OrderRef, o: OMOrder, qty: nat, p: seq<Response>, left: nat,
          rests: seq<BookOrder>)
    requires FillsTo(qty, p, left, ref) && qty > 0 && Rests(rests, ref, o.side, o.price, left)
    ensures Working(ref, o, qty, p, rests) && NoCancel(p)
    decreases |p|
  {
    if p != [] {
      assert p == [p[0]] + p[1..];
      if p[0].leavesQty > 0 {
        FillsWork(ref, o, p[0].leavesQty, p[1..], left, rests);
      }
    }
  }

  lemma ServeNew(client: nat, o: OMOrder, asked: seq<Request>, p: seq<Response>, rests: seq<BookOrder>,
                 told: seq<Response>, later: seq<BookOrder>)
    requires Agree(client, o, asked, p, rests) && asked != [] && asked[0].kind == NEW
    requires TellsSender(told, later, asked[0])
    ensures Agree(client, o, asked[1..], p + told, later)
  {
    NextIsNew(client, o, asked, p, rests);
    var left: nat :| FillsTo(o.qty, told[1..], left, asked[0].ref)
        && Rests(later, asked[0].ref, asked[0].side, asked[0].price, left);
    if o.qty > 0 {
      FillsWork(OrderRef(client, o.id), o, o.qty, told[1..], left, later);
    }
    assert p + told == told;
  }

  lemma {:induction false} WorkingCancel(ref: OrderRef, o: OMOrder, qty: nat, p: seq<Response>, rests: seq<BookOrder>,
          r: Response)
    requires Working(ref, o, qty, p, rests) && rests != [] && r.kind == CANCELED && r.ref == ref
    ensures Working(ref, o, qty, p + [r], [])
    decreases |p|
  {
    if p == [] {
      assert p + [r] == [r];
    } else {
      assert (p + [r])[0] == p[0] && (p + [r])[1..] == p[1..] + [r];
      if p[0].kind == FILLED && p[0].leavesQty > 0 {
        WorkingCancel(ref, o, p[0].leavesQty, p[1..], rests, r);
      }
    }
  }

  /** The next request served for the slot is a CANCEL: it takes the resting order if it names it. */
  lemma ServeCancel(client: nat, t: nat, o: OMOrder, asked: seq<Request>, p: seq<Response>, rests: seq<BookOrder>,
                    told: seq<Response>, later: seq<BookOrder>)
    requires Agree(client, o, asked, p, rests) && asked != [] && asked[0].kind == CANCEL
    requires if rests != [] && rests[0].key == asked[0].ref then told == [CanceledResponse(t, rests[0])] && later == []
             else told == [] && later == rests
    ensures Agree(client, o, asked[1..], p + told, later)
  {
    AtMostOne(client, o, asked, p, rests);
    if told == [] {
      assert p + told == p;
      if o.state == PENDING_CANCEL && o.qty > 0 {
        WorkingEnds(OrderRef(client, o.id), o, o.qty, p);
      }
    } else {
      WorkingCancel(OrderRef(client, o.id), o, o.qty, p, rests, told[0]);
    }
  }

  lemma WorkingEnds(ref: OrderRef, o: OMOrder, qty: nat, p: seq<Response>)
    requires Working(ref, o, qty, p, [])
    ensures p != []
  {
  }
}
