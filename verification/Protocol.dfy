/** A trading client against the exchange, with first-in first-out queues between them and other
    clients trading as they like: what holds over every run. */
module Protocol {
  import opened Common
  import opened Ladder
  import opened Matching
  import opened BookInvariant
  import opened Positions
  import opened ClientOrders
  import opened ClientEffect
  import opened Agreement

  datatype Place = Place(ticker: nat, side: Side)

  /** `responses` is everything the engine has sent that has not been consumed; what is for other
      clients is routed elsewhere. `owners` records which slot each order id was used for. */
  datatype World = World(desk: Desk, requests: seq<Request>, books: seq<Book>, responses: seq<Response>,
          owners: seq<Place>)

  function Start(): World {
    World(NewDesk(), [], seq(ME_MAX_TICKERS, _ => EMPTY_BOOK), [], [Place(0, INVALID)])
  }

  datatype Event =
    | Move(ticker: nat, side: Side, price: int, qty: nat)
    | Hear
    | Serve
    | Other(r: Request)
    | Quoted(ticker: nat, bid: int, ask: int)

  /** Orders are for a listed instrument and a trade side, of any quantity, zero included. */
  predicate Sensible(e: Event) {
    e.Move? ==> e.ticker < ME_MAX_TICKERS && IsTradeSide(e.side)
  }

  function ServeRequest(w: World, r: Request): World
    requires r.ticker < |w.books|
  {
    var s := Process(w.books[r.ticker], r);
    w.(books := w.books[r.ticker := s.book], responses := w.responses + s.responses)
  }

  /** One event. Requests of other clients that break the protocol are not considered. */
  ghost function Step(client: nat, cfgs: seq<RiskCfg>, w: World, e: Event): World
    requires |cfgs| == ME_MAX_TICKERS && Sensible(e) && w.desk.Sized() && |w.books| == ME_MAX_TICKERS
  {
    match e
    case Move(t, side, price, qty) =>
      var s := MoveOrder(client, cfgs[t], w.desk, t, price, side, qty);
      w.(desk := s.desk, requests := w.requests + s.requests,
         owners := if s.desk.nextId > w.desk.nextId then w.owners + [Place(t, side)] else w.owners)
    case Hear =>
      if w.responses == [] then w
      else
        var r, w' := w.responses[0], w.(responses := w.responses[1..]);
        if r.ref.client == client && r.ticker < ME_MAX_TICKERS then w'.(desk := OnOrderUpdate(w.desk, r)) else w'
    case Serve =>
      if w.requests == [] || w.requests[0].ticker >= ME_MAX_TICKERS then w
      else ServeRequest(w.(requests := w.requests[1..]), w.requests[0])
    case Other(r) =>
      if r.ref.client != client && r.ticker < ME_MAX_TICKERS && Admissible(w.books[r.ticker], r)
      then ServeRequest(w, r) else w
    case Quoted(t, bid, ask) => if t < ME_MAX_TICKERS then w.(desk := OnQuote(w.desk, t, bid, ask)) else w
  }

  ghost predicate Shaped(w: World) {
    w.desk.Sized() && |w.books| == ME_MAX_TICKERS && |w.owners| == w.desk.nextId
  }

  /** The requests on their way for one slot. */
  function Asked(rs: seq<Request>, t: nat, side: Side): seq<Request> {
    if rs == [] then []
    else (if rs[0].ticker == t && rs[0].side == side then [rs[0]] else []) + Asked(rs[1..], t, side)
  }

  lemma {:induction false} AskedAppend(a: seq<Request>, b: seq<Request>, t: nat, side: Side)
    ensures Asked(a + b, t, side) == Asked(a, t, side) + Asked(b, t, side)
  {
    if a == [] {
      assert a + b == b;
    } else {
      assert (a + b)[0] == a[0] && (a + b)[1..] == a[1..] + b;
      AskedAppend(a[1..], b, t, side);
      Regroup(if a[0].ticker == t && a[0].side == side then [a[0]] else [], Asked(a[1..], t, side), Asked(b, t, side));
    }
  }

  lemma AskedOne(r: Request, t: nat, side: Side)
    ensures Asked([r], t, side) == if r.ticker == t && r.side == side then [r] else []
  {
    assert [r][1..] == [];
  }

  lemma {:induction false} AskedIn(rs: seq<Request>, t: nat, side: Side)
    ensures forall i :: 0 <= i < |Asked(rs, t, side)| ==> Asked(rs, t, side)[i] in rs
  {
    if rs != [] {
      AskedIn(rs[1..], t, side);
      assert rs == [rs[0]] + rs[1..];
    }
  }

  function Slot(w: World, t: nat, side: Side): OMOrder
    requires w.desk.Sized() && t < ME_MAX_TICKERS
  {
    w.desk.slots[ClientOrders.SlotOf(t, side)]
  }

  // ----- the invariant -----

  ghost predicate AgreeAt(client: nat, w: World, t: nat, side: Side)
    requires Shaped(w) && t < ME_MAX_TICKERS
  {
    Agree(client, Slot(w, t, side), Asked(w.requests, t, side), Mine(w.responses, client, t, side),
          Owned(w.books[t].On(side), client))
  }

  /** A used slot holds an order made for it. */
  ghost predicate SlotPlaced(w: World, t: nat, side: Side)
    requires Shaped(w) && t < ME_MAX_TICKERS
  {
    var o := Slot(w, t, side);
    o.state != NEVER_USED ==> o.ticker == t && o.side == side && o.id < |w.owners| && w.owners[o.id] == Place(t, side)
  }

  ghost predicate RequestPlaced(client: nat, w: World, r: Request) {
    && r.ref.client == client && r.ticker < ME_MAX_TICKERS && IsTradeSide(r.side)
    && r.ref.coid < |w.owners| && w.owners[r.ref.coid] == Place(r.ticker, r.side)
  }

  function OpenQty(o: OMOrder): nat {
    if o.Idle() then 0 else o.qty
  }

  /** The position would stay within the limit even if either open order filled completely. */
  ghost predicate WithinLimit(w: World, cfg: RiskCfg, t: nat)
    requires Shaped(w) && t < ME_MAX_TICKERS
  {
    && w.desk.positions[t].position + OpenQty(Slot(w, t, BUY)) <= cfg.maxPosition
    && w.desk.positions[t].position - OpenQty(Slot(w, t, SELL)) >= -(cfg.maxPosition as int)
  }

  ghost predicate AgreeAll(client: nat, w: World)
    requires Shaped(w)
  {
    forall t: nat, side: Side :: t < ME_MAX_TICKERS && IsTradeSide(side) ==> AgreeAt(client, w, t, side)
  }

  ghost predicate PlacedAll(client: nat, w: World)
    requires Shaped(w)
  {
    && (forall t: nat, side: Side :: t < ME_MAX_TICKERS && IsTradeSide(side) ==> SlotPlaced(w, t, side))
    && (forall i :: 0 <= i < |w.requests| ==> RequestPlaced(client, w, w.requests[i]))
  }

  ghost predicate GoodBooks(w: World) {
    forall i :: 0 <= i < |w.books| ==> Good(w.books[i])
  }

  ghost predicate LimitAll(w: World, cfgs: seq<RiskCfg>)
    requires Shaped(w) && |cfgs| == ME_MAX_TICKERS
  {
    forall t: nat :: t < ME_MAX_TICKERS ==> WithinLimit(w, cfgs[t], t)
  }

  ghost predicate Inv(client: nat, cfgs: seq<RiskCfg>, w: World)
    requires |cfgs| == ME_MAX_TICKERS
  {
    Shaped(w) && GoodBooks(w) && AgreeAll(client, w) && PlacedAll(client, w) && LimitAll(w, cfgs)
  }

  ghost predicate AllSmall(cfgs: seq<RiskCfg>) {
    |cfgs| == ME_MAX_TICKERS && forall t :: 0 <= t < |cfgs| ==> SmallLimits(cfgs[t])
  }

  // ----- the client moves an order -----

  lemma OtherSlot(t: nat, side: Side, t': nat, side': Side)
    requires t != t' || side != side'
    ensures ClientOrders.SlotOf(t, side) != ClientOrders.SlotOf(t', side')
  {
  }

  /** A step of the client that leaves a slot and its requests alone. */
  lemma MoveElsewhere(client: nat, w: World, w': World, t: nat, side: Side, sent: seq<Request>)
    requires Shaped(w) && Shaped(w') && t < ME_MAX_TICKERS && IsTradeSide(side) && AgreeAt(client, w, t, side)
    requires SlotPlaced(w, t, side)
    requires Slot(w', t, side) == Slot(w, t, side) && w'.books == w.books && w'.responses == w.responses
    requires w'.requests == w.requests + sent && forall i :: 0 <= i < |sent| ==>
        sent[i].ticker != t || sent[i].side != side
    requires w.owners <= w'.owners
    ensures AgreeAt(client, w', t, side) && SlotPlaced(w', t, side)
  {
    AskedAppend(w.requests, sent, t, side);
    AskedNone(sent, t, side);
  }

  lemma {:induction false} AskedNone(rs: seq<Request>, t: nat, side: Side)
    requires forall i :: 0 <= i < |rs| ==> rs[i].ticker != t || rs[i].side != side
    ensures Asked(rs, t, side) == []
  {
    if rs != [] {
      AskedNone(rs[1..], t, side);
    }
  }

  lemma MoveSends(client: nat, cfg: RiskCfg, d: Desk, t: nat, side: Side, price: int, qty: nat)
    requires d.Sized() && t < ME_MAX_TICKERS && IsTradeSide(side)
    ensures var s, o := MoveOrder(client, cfg, d, t, price, side, qty), d.slots[ClientOrders.SlotOf(t, side)];
            || s == Sent(d, [])
            || (o.state == LIVE && s == CancelOrder(client, d, ClientOrders.SlotOf(t, side)))
            || (o.Idle() && CheckPreTradeRisk(d.positions[t], cfg, side, qty) == ALLOWED
                && s == NewOrder(client, d, t, price, side, qty))
  {
  }

  lemma MoveKeepsAgree(client: nat, cfgs: seq<RiskCfg>, w: World, e: Event)
    requires |cfgs| == ME_MAX_TICKERS && Inv(client, cfgs, w) && e.Move? && Sensible(e)
    ensures var w' := Step(client, cfgs, w, e);
            Shaped(w') && AgreeAt(client, w', e.ticker, e.side) && SlotPlaced(w', e.ticker, e.side)
  {
    hide Agree, MoveOrder, CheckPreTradeRisk;
    var t, side := e.ticker, e.side;
    var o, asked := Slot(w, t, side), Asked(w.requests, t, side);
    var s := MoveOrder(client, cfgs[t], w.desk, t, e.price, side, e.qty);
    assert AgreeAt(client, w, t, side) && SlotPlaced(w, t, side);
    MoveSends(client, cfgs[t], w.desk, t, side, e.price, e.qty);
    AskedAppend(w.requests, s.requests, t, side);
    if s == Sent(w.desk, []) {
      assert asked + [] == asked;
    } else {
      AskedOne(s.requests[0], t, side);
      if o.state == LIVE {
        SendCancel(client, o, asked, Mine(w.responses, client, t, side), Owned(w.books[t].On(side), client));
      } else {
        AskedOlder(client, w, t, side);
        SendNew(client, o, asked, Mine(w.responses, client, t, side), Owned(w.books[t].On(side), client),
                OMOrder(t, w.desk.nextId, side, e.price, e.qty, PENDING_NEW));
      }
    }
  }

  lemma AskedOlder(client: nat, w: World, t: nat, side: Side)
    requires Shaped(w) && PlacedAll(client, w)
    ensures forall i :: 0 <= i < |Asked(w.requests, t, side)| ==> Asked(w.requests, t, side)[i].ref.coid < w.desk.nextId
  {
    AskedIn(w.requests, t, side);
    forall i | 0 <= i < |Asked(w.requests, t, side)|
      ensures Asked(w.requests, t, side)[i].ref.coid < w.desk.nextId
    {
      var j :| 0 <= j < |w.requests| && w.requests[j] == Asked(w.requests, t, side)[i];
      assert RequestPlaced(client, w, w.requests[j]);
    }
  }

  lemma MoveKeepsLimit(client: nat, cfgs: seq<RiskCfg>, w: World, e: Event)
    requires AllSmall(cfgs) && Inv(client, cfgs, w) && e.Move? && Sensible(e)
    ensures var w' := Step(client, cfgs, w, e); Shaped(w') && WithinLimit(w', cfgs[e.ticker], e.ticker)
  {
    hide MoveOrder, CheckPreTradeRisk, AgreeAll, PlacedAll;
    var t, side := e.ticker, e.side;
    MoveSends(client, cfgs[t], w.desk, t, side, e.price, e.qty);
    AllowedIsPermitted(w.desk.positions[t], cfgs[t], side, e.qty);
    assert SmallLimits(cfgs[t]);
    assert WithinLimit(w, cfgs[t], t);
  }

  lemma MoveKeepsRequests(client: nat, cfgs: seq<RiskCfg>, w: World, e: Event)
    requires |cfgs| == ME_MAX_TICKERS && Inv(client, cfgs, w) && e.Move? && Sensible(e)
    ensures var w' := Step(client, cfgs, w, e);
            Shaped(w') && forall i :: 0 <= i < |w'.requests| ==> RequestPlaced(client, w', w'.requests[i])
  {
    hide MoveOrder, CheckPreTradeRisk, AgreeAll;
    var w' := Step(client, cfgs, w, e);
    MoveSends(client, cfgs[e.ticker], w.desk, e.ticker, e.side, e.price, e.qty);
    assert SlotPlaced(w, e.ticker, e.side);
    forall i | 0 <= i < |w'.requests|
      ensures RequestPlaced(client, w', w'.requests[i])
    {
      if i < |w.requests| {
        assert RequestPlaced(client, w, w.requests[i]);
      }
    }
  }

  lemma MoveKeeps(client: nat, cfgs: seq<RiskCfg>, w: World, e: Event)
    requires AllSmall(cfgs) && Inv(client, cfgs, w) && e.Move? && Sensible(e)
    ensures Inv(client, cfgs, Step(client, cfgs, w, e))
  {
    hide MoveOrder, CheckPreTradeRisk, AgreeAt, SlotPlaced, WithinLimit, RequestPlaced;
    var w' := Step(client, cfgs, w, e);
    var sent := MoveOrder(client, cfgs[e.ticker], w.desk, e.ticker, e.price, e.side, e.qty).requests;
    MoveKeepsAgree(client, cfgs, w, e);
    MoveKeepsLimit(client, cfgs, w, e);
    MoveKeepsRequests(client, cfgs, w, e);
    MoveSends(client, cfgs[e.ticker], w.desk, e.ticker, e.side, e.price, e.qty);
    SentHere(client, w, e, sent);
    forall t: nat, side: Side | t < ME_MAX_TICKERS && IsTradeSide(side)
      ensures AgreeAt(client, w', t, side) && SlotPlaced(w', t, side)
    {
      if t != e.ticker || side != e.side {
        assert AgreeAt(client, w, t, side) && SlotPlaced(w, t, side);
        OtherSlot(t, side, e.ticker, e.side);
        MoveElsewhere(client, w, w', t, side, sent);
      }
    }
    forall t: nat | t < ME_MAX_TICKERS
      ensures WithinLimit(w', cfgs[t], t)
    {
      if t != e.ticker {
        assert WithinLimit(w, cfgs[t], t);
        LimitElsewhere(w, w', cfgs[t], t, e.ticker, e.side);
      }
    }
  }

  /** What a move sends is for the slot it moves. */
  lemma SentHere(client: nat, w: World, e: Event, sent: seq<Request>)
    requires Shaped(w) && e.Move? && Sensible(e) && SlotPlaced(w, e.ticker, e.side)
    requires var o := Slot(w, e.ticker, e.side);
             || sent == []
             || (o.state == LIVE && sent == [CancelRequest(client, o)])
             || sent == [NewRequest(client, OMOrder(e.ticker, w.desk.nextId, e.side, e.price, e.qty, PENDING_NEW))]
    ensures forall i :: 0 <= i < |sent| ==> sent[i].ticker == e.ticker && sent[i].side == e.side
  {
  }

  lemma LimitElsewhere(w: World, w': World, cfg: RiskCfg, t: nat, t': nat, side': Side)
    requires Shaped(w) && Shaped(w') && t < ME_MAX_TICKERS && t' < ME_MAX_TICKERS && t != t'
    requires WithinLimit(w, cfg, t) && w'.desk.positions[t] == w.desk.positions[t]
    requires forall i :: 0 <= i < NUM_SLOTS && i != ClientOrders.SlotOf(t', side') ==>
        w'.desk.slots[i] == w.desk.slots[i]
    ensures WithinLimit(w', cfg, t)
  {
    OtherSlot(t, BUY, t', side');
    OtherSlot(t, SELL, t', side');
  }

  // ----- the client hears a response -----

  /** How a fill moves the position. */
  lemma FillMovesPosition(p: Position, f: Fill)
    ensures AddFill(p, f).position == ToInt32(p.position + SideToValue(f.side) * f.qty)
  {
    hide Unrealised, Realised;
  }

  /** A fill the slot can account for keeps the position within the limit. */
  lemma HearKeepsLimit(client: nat, cfgs: seq<RiskCfg>, w: World, r: Response)
    requires AllSmall(cfgs) && Shaped(w) && LimitAll(w, cfgs) && r.ticker < ME_MAX_TICKERS
    requires IsTradeSide(r.side) ==>
               var o := Slot(w, r.ticker, r.side);
               && (r.kind == FILLED ==> !o.Idle() && r.execQty + r.leavesQty == o.qty)
               && (r.kind == ACCEPTED ==> !o.Idle())
    ensures var w' := w.(desk := OnOrderUpdate(w.desk, r)); Shaped(w') && LimitAll(w', cfgs)
  {
    hide AddFill;
    var w', t0 := w.(desk := OnOrderUpdate(w.desk, r)), r.ticker;
    FillMovesPosition(w.desk.positions[t0], FillOf(r));
    forall t: nat | t < ME_MAX_TICKERS
      ensures WithinLimit(w', cfgs[t], t)
    {
      assert WithinLimit(w, cfgs[t], t);
      if t != t0 {
        LimitElsewhere(w, w', cfgs[t], t, t0, r.side);
      } else {
        assert SmallLimits(cfgs[t]);
      }
    }
  }

  lemma HearKeepsAgree(client: nat, w: World, r: Response, rest: seq<Response>, t: nat, side: Side)
    requires Shaped(w) && t < ME_MAX_TICKERS && IsTradeSide(side) && AgreeAt(client, w, t, side)
    requires SlotPlaced(w, t, side)
    requires w.responses == [r] + rest && r.ref.client == client && r.ticker < ME_MAX_TICKERS
    ensures var w' := w.(responses := rest, desk := OnOrderUpdate(w.desk, r));
            Shaped(w') && AgreeAt(client, w', t, side) && SlotPlaced(w', t, side)
    ensures r.ticker == t && r.side == side ==>
              var o := Slot(w, t, side);
              && (r.kind == FILLED ==> !o.Idle() && r.execQty + r.leavesQty == o.qty)
              && (r.kind == ACCEPTED ==> !o.Idle())
  {
    hide Agree, AddFill;
    var p := Mine(w.responses, client, t, side);
    MineAppend([r], rest, client, t, side);
    MineOne(r, client, t, side);
    if r.ticker == t && r.side == side {
      assert p[0] == r && p[1..] == Mine(rest, client, t, side);
      HearResponse(client, Slot(w, t, side), Asked(w.requests, t, side), p, Owned(w.books[t].On(side), client));
      HeardIsUsed(client, Slot(w, t, side), Asked(w.requests, t, side), p, Owned(w.books[t].On(side), client));
    } else {
      OtherSlot(t, side, r.ticker, r.side);
      assert p == Mine(rest, client, t, side);
    }
  }

  lemma HeardIsUsed(client: nat, o: OMOrder, asked: seq<Request>, p: seq<Response>, rests: seq<BookOrder>)
    requires Agree(client, o, asked, p, rests) && p != []
    ensures o.state != NEVER_USED
  {
  }

  lemma NotForUs(client: nat, w: World, r: Response, rest: seq<Response>, t: nat, side: Side)
    requires Shaped(w) && t < ME_MAX_TICKERS && AgreeAt(client, w, t, side)
    requires w.responses == [r] + rest && (r.ref.client != client || r.ticker >= ME_MAX_TICKERS)
    ensures AgreeAt(client, w.(responses := rest), t, side)
  {
    hide Agree;
    MineAppend([r], rest, client, t, side);
    MineOne(r, client, t, side);
    assert Mine(w.responses, client, t, side) == Mine(rest, client, t, side);
  }

  lemma HearKeeps(client: nat, cfgs: seq<RiskCfg>, w: World)
    requires AllSmall(cfgs) && Inv(client, cfgs, w)
    ensures Inv(client, cfgs, Step(client, cfgs, w, Hear))
  {
    hide AgreeAt, SlotPlaced, WithinLimit, RequestPlaced, OnOrderUpdate;
    if w.responses != [] {
      var r, rest := w.responses[0], w.responses[1..];
      assert w.responses == [r] + rest;
      var w' := Step(client, cfgs, w, Hear);
      var heard := r.ref.client == client && r.ticker < ME_MAX_TICKERS;
      forall t: nat, side: Side | t < ME_MAX_TICKERS && IsTradeSide(side)
        ensures Shaped(w') && AgreeAt(client, w', t, side) && SlotPlaced(w', t, side)
      {
        assert AgreeAt(client, w, t, side) && SlotPlaced(w, t, side);
        if heard {
          HearKeepsAgree(client, w, r, rest, t, side);
        } else {
          NotForUs(client, w, r, rest, t, side);
          SamePlaces(client, w, w.(responses := rest), t, side);
        }
      }
      if heard {
        if IsTradeSide(r.side) {
          assert AgreeAt(client, w, r.ticker, r.side) && SlotPlaced(w, r.ticker, r.side);
          HearKeepsAgree(client, w, r, rest, r.ticker, r.side);
        }
        HearKeepsLimit(client, cfgs, w, r);
      }
      SameRest(client, cfgs, w, w', heard, r);
    }
  }

  lemma SamePlaces(client: nat, w: World, w': World, t: nat, side: Side)
    requires Shaped(w) && Shaped(w') && t < ME_MAX_TICKERS && SlotPlaced(w, t, side)
    requires w'.desk == w.desk && w'.owners == w.owners
    ensures SlotPlaced(w', t, side)
  {
  }

  lemma SameRest(client: nat, cfgs: seq<RiskCfg>, w: World, w': World, heard: bool, r: Response)
    requires AllSmall(cfgs) && Inv(client, cfgs, w) && Shaped(w')
    requires w'.requests == w.requests && w'.books == w.books && w'.owners == w.owners
    requires if heard then r.ticker < ME_MAX_TICKERS && w'.desk == OnOrderUpdate(w.desk, r)
                           && LimitAll(w.(desk := OnOrderUpdate(w.desk, r)), cfgs)
             else w'.desk == w.desk
    ensures LimitAll(w', cfgs) && GoodBooks(w') && forall i :: 0 <= i < |w'.requests| ==>
        RequestPlaced(client, w', w'.requests[i])
  {
    hide OnOrderUpdate, AgreeAll;
    forall t: nat | t < ME_MAX_TICKERS
      ensures WithinLimit(w', cfgs[t], t)
    {
      var v := if heard then w.(desk := OnOrderUpdate(w.desk, r)) else w;
      assert WithinLimit(v, cfgs[t], t);
    }
    forall i | 0 <= i < |w'.requests|
      ensures RequestPlaced(client, w', w'.requests[i])
    {
      assert RequestPlaced(client, w, w.requests[i]);
    }
  }

  // ----- the exchange serves a request -----

  /** The next request on its way for this slot is this one, from this client. */
  predicate IsMine(client: nat, r: Request, side: Side) {
    r.ref.client == client && r.side == side
  }

  lemma ServeNewAt(client: nat, b: Book, r: Request, o: OMOrder, asked: seq<Request>, p: seq<Response>, side: Side)
    requires Good(b) && r.kind == NEW && IsTradeSide(r.side) && IsTradeSide(side)
    requires Agree(client, o, asked, p, Owned(b.On(side), client))
    requires IsMine(client, r, side) ==> asked != [] && asked[0] == r
    ensures var s := Process(b, r);
            Agree(client, o, if IsMine(client, r, side) then asked[1..] else asked,
                  p + Mine(s.responses, client, r.ticker, side), Owned(s.book.On(side), client))
  {
    hide Agree, Add, Hit, TellsSender, Good;
    var s, rests := Process(b, r), Owned(b.On(side), client);
    AtMostOne(client, o, asked, p, rests);
    if side == r.side {
      AddTellsOwn(b, r, client);
      if r.ref.client == client {
        NextIsNew(client, o, asked, p, rests);
        ServeNew(client, o, asked, p, rests, Mine(s.responses, client, r.ticker, side), Owned(s.book.On(side), client));
      } else {
        NotHit(rests);
        GetHit(client, o, asked, p, rests, [], rests);
      }
    } else {
      AddTellsFacing(b, r, client);
      GetHit(client, o, asked, p, rests, Mine(s.responses, client, r.ticker, side), Owned(s.book.On(side), client));
    }
  }

  lemma ServeCancelAt(client: nat, b: Book, r: Request, o: OMOrder, asked: seq<Request>, p: seq<Response>, side: Side)
    requires Good(b) && r.kind == CANCEL && IsTradeSide(side)
    requires Agree(client, o, asked, p, Owned(b.On(side), client))
    requires IsMine(client, r, side) ==> asked != [] && asked[0] == r
    requires !IsMine(client, r, side) && Owned(b.On(side), client) != [] ==> Owned(b.On(side), client)[0].key != r.ref
    ensures var s := Process(b, r);
            Agree(client, o, if IsMine(client, r, side) then asked[1..] else asked,
                  p + Mine(s.responses, client, r.ticker, side), Owned(s.book.On(side), client))
  {
    hide Agree, Cancel, Good, Hit;
    var s, rests := Process(b, r), Owned(b.On(side), client);
    AtMostOne(client, o, asked, p, rests);
    CancelTells(b, r.ticker, r.ref, client, side);
    var told, later := Mine(s.responses, client, r.ticker, side), Owned(s.book.On(side), client);
    if IsMine(client, r, side) {
      ServeCancel(client, r.ticker, o, asked, p, rests, told, later);
    } else {
      NotHit(rests);
      GetHit(client, o, asked, p, rests, told, later);
    }
  }

  /** Serving `r`, taken from the client's queue if `own`, keeps a slot in agreement. */
  lemma ServeKeepsAgree(client: nat, w: World, r: Request, own: bool, t: nat, side: Side)
    requires Shaped(w) && t < ME_MAX_TICKERS && IsTradeSide(side) && AgreeAt(client, w, t, side)
    requires r.ticker < ME_MAX_TICKERS && Good(w.books[r.ticker]) && Admissible(w.books[r.ticker], r)
    requires if own then w.requests != [] && r == w.requests[0] && r.ref.client == client else r.ref.client != client
    requires r.kind == CANCEL && r.ticker == t && !IsMine(client, r, side) ==>
             Owned(w.books[t].On(side), client) != [] ==>
               Owned(w.books[t].On(side), client)[0].key != r.ref
    ensures var w' := ServeRequest(if own then w.(requests := w.requests[1..]) else w, r);
            Shaped(w') && AgreeAt(client, w', t, side)
  {
    hide Agree, Process, Good, Admissible;
    var b, s := w.books[r.ticker], Process(w.books[r.ticker], r);
    var asked, p := Asked(w.requests, t, side), Mine(w.responses, client, t, side);
    var rest := if own then w.requests[1..] else w.requests;
    MineAppend(w.responses, s.responses, client, t, side);
    assert Asked(rest, t, side) == if own && r.ticker == t && r.side == side then asked[1..] else asked;
    if r.ticker == t {
      ServeAt(client, b, r, Slot(w, t, side), asked, p, side);
    } else {
      ProcessTicker(b, r);
      MineOtherTicker(s.responses, client, t, side);
      assert p + [] == p;
    }
  }

  lemma ServeAt(client: nat, b: Book, r: Request, o: OMOrder, asked: seq<Request>, p: seq<Response>, side: Side)
    requires Good(b) && Admissible(b, r) && IsTradeSide(side)
    requires Agree(client, o, asked, p, Owned(b.On(side), client))
    requires IsMine(client, r, side) ==> asked != [] && asked[0] == r
    requires r.kind == CANCEL && !IsMine(client, r, side) && Owned(b.On(side), client) != [] ==>
               Owned(b.On(side), client)[0].key != r.ref
    ensures var s := Process(b, r);
            Agree(client, o, if IsMine(client, r, side) then asked[1..] else asked,
                  p + Mine(s.responses, client, r.ticker, side), Owned(s.book.On(side), client))
  {
    hide Agree, Process, Good, Lookup;
    match r.kind
    case NEW => ServeNewAt(client, b, r, o, asked, p, side);
    case CANCEL => ServeCancelAt(client, b, r, o, asked, p, side);
  }

  /** An order of the client that rests on a side has the id of that side's slot. */
  lemma RestingIsPlaced(client: nat, w: World, t: nat, side: Side)
    requires Shaped(w) && t < ME_MAX_TICKERS && IsTradeSide(side) && AgreeAt(client, w, t, side)
    requires SlotPlaced(w, t, side)
    ensures var rests := Owned(w.books[t].On(side), client);
            |rests| <= 1 && (rests != [] ==>
                rests[0].key.coid < |w.owners| && w.owners[rests[0].key.coid] == Place(t, side))
  {
    hide Agree;
    AtMostOne(client, Slot(w, t, side), Asked(w.requests, t, side), Mine(w.responses, client, t, side),
        Owned(w.books[t].On(side), client));
  }

  /** A request of the client on one side names no order resting on another side or instrument. */
  lemma NamesOnlyItsSide(client: nat, w: World, r: Request, t: nat, side: Side)
    requires Shaped(w) && t < ME_MAX_TICKERS && IsTradeSide(side) && AgreeAt(client, w, t, side)
    requires SlotPlaced(w, t, side)
    requires if r.ref.client == client then RequestPlaced(client, w, r) && (r.side != side || r.ticker != t) else true
    ensures Owned(w.books[t].On(side), client) != [] ==> Owned(w.books[t].On(side), client)[0].key != r.ref
  {
    hide Agree;
    RestingIsPlaced(client, w, t, side);
    OwnedIn(w.books[t].On(side), client);
    if Owned(w.books[t].On(side), client) != [] {
      assert Owned(w.books[t].On(side), client)[0] in Owned(w.books[t].On(side), client);
    }
  }

  /** The client's own requests are always admissible: it never reuses a name that is resting. */
  lemma OwnIsAdmissible(client: nat, w: World, r: Request)
    requires Shaped(w) && AgreeAll(client, w) && PlacedAll(client, w) && w.requests != [] && r == w.requests[0]
    ensures RequestPlaced(client, w, r) && Admissible(w.books[r.ticker], r)
  {
    hide Agree, SlotPlaced, Lookup, Owned, Mine;
    assert RequestPlaced(client, w, w.requests[0]);
    var t, b := r.ticker, w.books[r.ticker];
    if r.kind == NEW {
      assert AgreeAt(client, w, t, r.side) && SlotPlaced(w, t, r.side);
      assert AgreeAt(client, w, t, Opposite(r.side)) && SlotPlaced(w, t, Opposite(r.side));
      NextIsNew(client, Slot(w, t, r.side), Asked(w.requests, t, r.side), Mine(w.responses, client, t, r.side),
                Owned(b.On(r.side), client));
      NamesOnlyItsSide(client, w, r, t, Opposite(r.side));
      RestingIsPlaced(client, w, t, Opposite(r.side));
      NotNamed(b.On(r.side), client, r.ref);
      NotNamed(b.On(Opposite(r.side)), client, r.ref);
    }
  }

  /** A client with at most one order on a side has none of any other name there. */
  lemma NotNamed(s: seq<BookOrder>, client: nat, ref: OrderRef)
    requires ref.client == client && |Owned(s, client)| <= 1
    requires Owned(s, client) != [] ==> Owned(s, client)[0].key != ref
    ensures forall o :: o in s ==> o.key != ref
  {
    OwnedIn(s, client);
  }

  lemma ServeKeepsPlaces(client: nat, w: World, r: Request, own: bool)
    requires Shaped(w) && GoodBooks(w) && PlacedAll(client, w) && r.ticker < ME_MAX_TICKERS
    requires Admissible(w.books[r.ticker], r)
    requires own ==> w.requests != []
    ensures var w' := ServeRequest(if own then w.(requests := w.requests[1..]) else w, r);
            Shaped(w') && GoodBooks(w') && PlacedAll(client, w')
  {
    hide Process, Good, Admissible;
    var w' := ServeRequest(if own then w.(requests := w.requests[1..]) else w, r);
    ProcessKeepsGood(w.books[r.ticker], r);
    forall t: nat, side: Side | t < ME_MAX_TICKERS && IsTradeSide(side)
      ensures SlotPlaced(w', t, side)
    {
      assert SlotPlaced(w, t, side);
    }
    forall i | 0 <= i < |w'.requests|
      ensures RequestPlaced(client, w', w'.requests[i])
    {
      assert RequestPlaced(client, w, w.requests[if own then i + 1 else i]);
    }
  }

  /** Serving a request, the client's next one or anybody else's, keeps the invariant. */
  lemma ServeKeeps(client: nat, cfgs: seq<RiskCfg>, w: World, r: Request, own: bool)
    requires AllSmall(cfgs) && Inv(client, cfgs, w)
    requires if own then w.requests != [] && r == w.requests[0]
             else r.ref.client != client && r.ticker < ME_MAX_TICKERS && Admissible(w.books[r.ticker], r)
    ensures r.ticker < ME_MAX_TICKERS
    ensures Inv(client, cfgs, ServeRequest(if own then w.(requests := w.requests[1..]) else w, r))
  {
    hide AgreeAt, SlotPlaced, WithinLimit, Process, Admissible, Good;
    if own {
      OwnIsAdmissible(client, w, r);
    }
    var w' := ServeRequest(if own then w.(requests := w.requests[1..]) else w, r);
    ServeKeepsPlaces(client, w, r, own);
    forall t: nat, side: Side | t < ME_MAX_TICKERS && IsTradeSide(side)
      ensures AgreeAt(client, w', t, side)
    {
      assert AgreeAt(client, w, t, side) && SlotPlaced(w, t, side);
      if r.ticker == t && !IsMine(client, r, side) {
        NamesOnlyItsSide(client, w, r, t, side);
      }
      ServeKeepsAgree(client, w, r, own, t, side);
    }
    forall t: nat | t < ME_MAX_TICKERS
      ensures WithinLimit(w', cfgs[t], t)
    {
      assert WithinLimit(w, cfgs[t], t);
      LimitSame(w, w', cfgs[t], t);
    }
  }

  lemma LimitSame(w: World, w': World, cfg: RiskCfg, t: nat)
    requires Shaped(w) && Shaped(w') && t < ME_MAX_TICKERS && WithinLimit(w, cfg, t) && w'.desk == w.desk
    ensures WithinLimit(w', cfg, t)
  {
  }

  // ----- the client hears of the market -----

  /** A quote revalues a position and leaves everything else alone. */
  lemma QuotedKeeps(client: nat, cfgs: seq<RiskCfg>, w: World, t: nat, bid: int, ask: int)
    requires |cfgs| == ME_MAX_TICKERS && Inv(client, cfgs, w) && t < ME_MAX_TICKERS
    ensures Inv(client, cfgs, w.(desk := OnQuote(w.desk, t, bid, ask)))
  {
    hide Agree, Good, Unrealised;
    var w' := w.(desk := OnQuote(w.desk, t, bid, ask));
    forall t: nat, side: Side | t < ME_MAX_TICKERS && IsTradeSide(side)
      ensures AgreeAt(client, w', t, side) && SlotPlaced(w', t, side)
    {
      assert AgreeAt(client, w, t, side) && SlotPlaced(w, t, side);
    }
    forall i | 0 <= i < |w'.requests|
      ensures RequestPlaced(client, w', w'.requests[i])
    {
      assert RequestPlaced(client, w, w.requests[i]);
    }
    forall t: nat | t < ME_MAX_TICKERS
      ensures WithinLimit(w', cfgs[t], t)
    {
      assert WithinLimit(w, cfgs[t], t);
    }
  }

  // ----- every run -----

  lemma StepKeeps(client: nat, cfgs: seq<RiskCfg>, w: World, e: Event)
    requires AllSmall(cfgs) && Inv(client, cfgs, w) && Sensible(e)
    ensures Inv(client, cfgs, Step(client, cfgs, w, e))
  {
    hide Inv, ServeRequest, MoveOrder, OnOrderUpdate;
    InvIsShaped(client, cfgs, w);
    match e
    case Move(_, _, _, _) => MoveKeeps(client, cfgs, w, e);
    case Hear => HearKeeps(client, cfgs, w);
    case Serve =>
      if w.requests != [] {
        ServeKeeps(client, cfgs, w, w.requests[0], true);
      }
    case Other(r) =>
      if r.ref.client != client && r.ticker < ME_MAX_TICKERS && Admissible(w.books[r.ticker], r) {
        ServeKeeps(client, cfgs, w, r, false);
      }
    case Quoted(t, bid, ask) =>
      if t < ME_MAX_TICKERS {
        QuotedKeeps(client, cfgs, w, t, bid, ask);
      }
  }

  lemma InvIsShaped(client: nat, cfgs: seq<RiskCfg>, w: World)
    requires |cfgs| == ME_MAX_TICKERS && Inv(client, cfgs, w)
    ensures Shaped(w)
  {
  }

  lemma StartsWell(client: nat, cfgs: seq<RiskCfg>)
    requires |cfgs| == ME_MAX_TICKERS
    ensures Inv(client, cfgs, Start())
  {
    assert Good(EMPTY_BOOK);
    forall t: nat, side: Side | t < ME_MAX_TICKERS && IsTradeSide(side)
      ensures AgreeAt(client, Start(), t, side) && SlotPlaced(Start(), t, side)
    {
      assert Slot(Start(), t, side) == NO_ORDER;
    }
  }

  ghost predicate AllSensible(es: seq<Event>) {
    forall i :: 0 <= i < |es| ==> Sensible(es[i])
  }

  /** The world after a run. */
  ghost function Run(client: nat, cfgs: seq<RiskCfg>, es: seq<Event>): World
    requires AllSmall(cfgs) && AllSensible(es)
    decreases |es|
  {
    if es == [] then Start()
    else
      var w := Run(client, cfgs, es[..|es| - 1]);
      if Shaped(w) then Step(client, cfgs, w, es[|es| - 1]) else w
  }

  lemma {:induction false} RunKeeps(client: nat, cfgs: seq<RiskCfg>, es: seq<Event>)
    requires AllSmall(cfgs) && AllSensible(es)
    ensures Inv(client, cfgs, Run(client, cfgs, es))
    decreases |es|
  {
    hide Inv, Step;
    if es == [] {
      StartsWell(client, cfgs);
    } else {
      RunKeeps(client, cfgs, es[..|es| - 1]);
      InvIsShaped(client, cfgs, Run(client, cfgs, es[..|es| - 1]));
      StepKeeps(client, cfgs, Run(client, cfgs, es[..|es| - 1]), es[|es| - 1]);
    }
  }

  /** The position limit over every run: even if the open orders filled completely the position
      would stay within the limit, so it is within the limit now. */
  lemma PositionLimit(client: nat, cfgs: seq<RiskCfg>, es: seq<Event>, t: nat)
    requires AllSmall(cfgs) && AllSensible(es) && t < ME_MAX_TICKERS
    ensures var w := Run(client, cfgs, es);
            && Shaped(w) && w.desk.positions[t].position + OpenQty(Slot(w, t, BUY)) <= cfgs[t].maxPosition
            && w.desk.positions[t].position - OpenQty(Slot(w, t, SELL)) >= -(cfgs[t].maxPosition as int)
            && Abs(w.desk.positions[t].position) <= cfgs[t].maxPosition
  {
    RunKeeps(client, cfgs, es);
    assert WithinLimit(Run(client, cfgs, es), cfgs[t], t);
  }

  /** What moving an order does, where the position is within the limit. */
  ghost predicate QuotesExactly(client: nat, cfg: RiskCfg, w: World, t: nat, side: Side, price: int, qty: nat,
          w': World)
    requires Shaped(w) && Shaped(w') && t < ME_MAX_TICKERS
  {
    var p := w.desk.positions[t];
    var after := if side == BUY then p.position + qty else p.position - qty;
    var allowed := qty <= cfg.maxOrderSize && Abs(after) <= cfg.maxPosition && p.totalPnl >= cfg.maxLoss;
    && w.requests <= w'.requests
    && Brings(client, Slot(w, t, side), Quote(t, w.desk.nextId, side, price, qty), allowed,
              Slot(w', t, side), w'.requests[|w.requests|..])
  }

  lemma PermittedIsAllowed(p: Position, cfg: RiskCfg, side: Side, qty: nat)
    requires SmallLimits(cfg) && Abs(p.position) <= cfg.maxPosition && IsTradeSide(side)
    ensures var after := if side == BUY then p.position + qty else p.position - qty;
            CheckPreTradeRisk(p, cfg, side, qty) == ALLOWED <==>
            qty <= cfg.maxOrderSize && Abs(after) <= cfg.maxPosition && p.totalPnl >= cfg.maxLoss
  {
    hide CheckPreTradeRisk;
    GateTellsWhy(p, cfg, side, qty);
  }

  lemma MoveIsExact(client: nat, cfgs: seq<RiskCfg>, w: World, e: Event)
    requires AllSmall(cfgs) && Shaped(w) && e.Move? && Sensible(e)
    requires Abs(w.desk.positions[e.ticker].position) <= cfgs[e.ticker].maxPosition
    requires Shaped(Step(client, cfgs, w, e))
    ensures QuotesExactly(client, cfgs[e.ticker], w, e.ticker, e.side, e.price, e.qty, Step(client, cfgs, w, e))
  {
    hide MoveOrder, CheckPreTradeRisk, Brings;
    var t, cfg := e.ticker, cfgs[e.ticker];
    assert SmallLimits(cfg);
    PermittedIsAllowed(w.desk.positions[t], cfg, e.side, e.qty);
    MoveOrderDoes(client, cfg, w.desk, t, e.price, e.side, e.qty);
    var sent := MoveOrder(client, cfg, w.desk, t, e.price, e.side, e.qty).requests;
    assert (w.requests + sent)[|w.requests|..] == sent;
  }

  /** Over every run the client quotes exactly what it is allowed to: moving an order cancels it if it is
      live with another price or quantity, and places a new one if the slot is idle, the price is a price,
      and the order is small enough, cannot take the position beyond its limit, and the loss is allowed. */
  lemma QuotesAreExact(client: nat, cfgs: seq<RiskCfg>, es: seq<Event>, t: nat, side: Side, price: int, qty: nat)
    requires AllSmall(cfgs) && AllSensible(es) && t < ME_MAX_TICKERS && IsTradeSide(side)
    ensures var w := Run(client, cfgs, es);
            Shaped(w) &&
            var w' := Step(client, cfgs, w, Move(t, side, price, qty));
            Shaped(w') && QuotesExactly(client, cfgs[t], w, t, side, price, qty, w')
  {
    hide Inv, Step, Run, QuotesExactly;
    var w, e := Run(client, cfgs, es), Move(t, side, price, qty);
    PositionLimit(client, cfgs, es, t);
    RunKeeps(client, cfgs, es);
    StepKeeps(client, cfgs, w, e);
    InvIsShaped(client, cfgs, Step(client, cfgs, w, e));
    MoveIsExact(client, cfgs, w, e);
  }

  /** Client and exchange agree over every run: at most one order of the client rests on each side of
      each instrument, and it is the slot's; and a slot with nothing on its way in either direction
      tells the truth about it, even when a cancel raced a complete fill, unless it holds an order of
      quantity zero. */
  lemma ClientAndExchangeAgree(client: nat, cfgs: seq<RiskCfg>, es: seq<Event>, t: nat, side: Side)
    requires AllSmall(cfgs) && AllSensible(es) && t < ME_MAX_TICKERS && IsTradeSide(side)
    ensures var w := Run(client, cfgs, es);
            Shaped(w) &&
            var o, rests := Slot(w, t, side), Owned(w.books[t].On(side), client);
            && |rests| <= 1 && (o.Idle() ==> rests == [])
            && (rests != [] ==> rests[0].key == OrderRef(client, o.id))
            && (Asked(w.requests, t, side) == [] && Mine(w.responses, client, t, side) == [] ==>
                  && (o.Idle() || o.state == LIVE || o.qty == 0)
                  && (o.state == LIVE && o.qty > 0 ==>
                      |rests| == 1 && rests[0].price == o.price && rests[0].qty == o.qty))
  {
    hide Agree;
    RunKeeps(client, cfgs, es);
    var w := Run(client, cfgs, es);
    var rests := Owned(w.books[t].On(side), client);
    assert AgreeAt(client, w, t, side);
    AtMostOne(client, Slot(w, t, side), Asked(w.requests, t, side), Mine(w.responses, client, t, side), rests);
    if Asked(w.requests, t, side) == [] && Mine(w.responses, client, t, side) == [] {
      DrainedMeansTrue(client, Slot(w, t, side), rests);
    }
  }

  // ----- every run can come to rest -----

  /** `n` times the same event. */
  function Again(e: Event, n: nat): (es: seq<Event>)
    ensures |es| == n && forall i :: 0 <= i < n ==> es[i] == e
  {
    seq(n, _ => e)
  }

  /** Serving takes one request from the queue, and hearing one response. */
  lemma OneLess(client: nat, cfgs: seq<RiskCfg>, w: World)
    requires AllSmall(cfgs) && Inv(client, cfgs, w)
    ensures w.requests != [] ==> Step(client, cfgs, w, Serve).requests == w.requests[1..]
    ensures w.responses != [] ==> Step(client, cfgs, w, Hear).responses == w.responses[1..]
    ensures Step(client, cfgs, w, Hear).requests == w.requests
  {
    hide AgreeAll, LimitAll, GoodBooks, Process, OnOrderUpdate;
    if w.requests != [] {
      assert RequestPlaced(client, w, w.requests[0]);
    }
  }

  lemma RunOneMore(client: nat, cfgs: seq<RiskCfg>, es: seq<Event>, e: Event)
    requires AllSmall(cfgs) && AllSensible(es) && Sensible(e)
    ensures AllSensible(es + [e]) && Inv(client, cfgs, Run(client, cfgs, es))
    ensures Run(client, cfgs, es + [e]) == Step(client, cfgs, Run(client, cfgs, es), e)
  {
    hide Inv, Step;
    RunKeeps(client, cfgs, es);
    InvIsShaped(client, cfgs, Run(client, cfgs, es));
    assert (es + [e])[..|es|] == es;
  }

  lemma AgainOneMore(es: seq<Event>, e: Event, n: nat)
    requires n > 0
    ensures es + Again(e, n) == es + Again(e, n - 1) + [e]
    ensures es + Again(e, 0) == es
  {
  }

  lemma {:induction false} ServedOut(client: nat, cfgs: seq<RiskCfg>, es: seq<Event>, n: nat)
    requires AllSmall(cfgs) && AllSensible(es) && n <= |Run(client, cfgs, es).requests|
    ensures AllSensible(es + Again(Serve, n))
    ensures Run(client, cfgs, es + Again(Serve, n)).requests == Run(client, cfgs, es).requests[n..]
  {
    hide Inv, Step, Run;
    if n == 0 {
      assert es + Again(Serve, n) == es;
    } else {
      ServedOut(client, cfgs, es, n - 1);
      AgainOneMore(es, Serve, n);
      RunOneMore(client, cfgs, es + Again(Serve, n - 1), Serve);
      OneLess(client, cfgs, Run(client, cfgs, es + Again(Serve, n - 1)));
    }
  }

  lemma {:induction false} HeardOut(client: nat, cfgs: seq<RiskCfg>, es: seq<Event>, n: nat)
    requires AllSmall(cfgs) && AllSensible(es) && n <= |Run(client, cfgs, es).responses|
    ensures AllSensible(es + Again(Hear, n))
    ensures var w, w' := Run(client, cfgs, es), Run(client, cfgs, es + Again(Hear, n));
            w'.responses == w.responses[n..] && w'.requests == w.requests
  {
    hide Inv, Step, Run;
    if n == 0 {
      assert es + Again(Hear, n) == es;
    } else {
      HeardOut(client, cfgs, es, n - 1);
      AgainOneMore(es, Hear, n);
      RunOneMore(client, cfgs, es + Again(Hear, n - 1), Hear);
      OneLess(client, cfgs, Run(client, cfgs, es + Again(Hear, n - 1)));
    }
  }

  /** Whatever has happened, once the exchange has served the requests on their way and the client has heard the
      responses, nothing is on its way, and every slot is idle or live or holds an order of quantity zero. */
  lemma RunsComeToRest(client: nat, cfgs: seq<RiskCfg>, es: seq<Event>) returns (all: seq<Event>)
    requires AllSmall(cfgs) && AllSensible(es)
    ensures var served := es + Again(Serve, |Run(client, cfgs, es).requests|);
            && AllSensible(served) && all == served + Again(Hear, |Run(client, cfgs, served).responses|)
    ensures AllSensible(all)
    ensures var w := Run(client, cfgs, all);
            && Shaped(w) && w.requests == [] && w.responses == []
            && forall t: nat, side: Side :: t < ME_MAX_TICKERS && IsTradeSide(side) ==>
                 var o := Slot(w, t, side); o.Idle() || o.state == LIVE || o.qty == 0
  {
    hide Run;
    var n := |Run(client, cfgs, es).requests|;
    ServedOut(client, cfgs, es, n);
    var served := es + Again(Serve, n);
    var m := |Run(client, cfgs, served).responses|;
    HeardOut(client, cfgs, served, m);
    all := served + Again(Hear, m);
    RunKeeps(client, cfgs, all);
    InvIsShaped(client, cfgs, Run(client, cfgs, all));
    forall t: nat, side: Side | t < ME_MAX_TICKERS && IsTradeSide(side)
      ensures var o := Slot(Run(client, cfgs, all), t, side); o.Idle() || o.state == LIVE || o.qty == 0
    {
      ClientAndExchangeAgree(client, cfgs, all, t, side);
    }
  }

  // ----- an order of quantity zero -----

  /** A zero quantity passes the gate whenever the position is within the limit and the loss is allowed,
      and takes the slot. */
  lemma ZeroIsPlaced(client: nat, cfgs: seq<RiskCfg>, w: World, t: nat, side: Side, price: int)
    requires AllSmall(cfgs) && Inv(client, cfgs, w) && t < ME_MAX_TICKERS && IsTradeSide(side)
    requires Slot(w, t, side).Idle() && price != PRICE_INVALID
    ensures var w' := Step(client, cfgs, w, Move(t, side, price, 0));
            Shaped(w') && (HoldsZero(Slot(w', t, side)) <==> w.desk.positions[t].totalPnl >= cfgs[t].maxLoss)
  {
    hide AgreeAll, PlacedAll;
    assert WithinLimit(w, cfgs[t], t) && SmallLimits(cfgs[t]);
    AllowedIsPermitted(w.desk.positions[t], cfgs[t], side, 0);
  }

  predicate HoldsZero(o: OMOrder) {
    !o.Idle() && o.qty == 0
  }

  /** The same order of quantity zero, and no way back from waiting for its cancel. */
  predicate StillZero(o: OMOrder, o': OMOrder) {
    && HoldsZero(o') && o'.id == o.id
    && (o.state == PENDING_CANCEL ==> o'.state == PENDING_CANCEL)
  }

  /** Such a slot hears nothing but an acknowledgement, and nothing once it has asked for a cancel. */
  lemma ZeroHears(client: nat, o: OMOrder, asked: seq<Request>, p: seq<Response>, rests: seq<BookOrder>)
    requires Agree(client, o, asked, p, rests) && HoldsZero(o)
    ensures rests == [] && (p != [] ==> p[0].kind == ACCEPTED && o.state == PENDING_NEW)
  {
  }

  lemma ZeroStays(client: nat, cfgs: seq<RiskCfg>, w: World, e: Event, t: nat, side: Side)
    requires AllSmall(cfgs) && Inv(client, cfgs, w) && Sensible(e) && t < ME_MAX_TICKERS && IsTradeSide(side)
    requires HoldsZero(Slot(w, t, side))
    ensures var w' := Step(client, cfgs, w, e); Shaped(w') && StillZero(Slot(w, t, side), Slot(w', t, side))
  {
    hide AgreeAll, PlacedAll, LimitAll, GoodBooks, MoveOrder, CheckPreTradeRisk, Process, AddFill;
    match e
    case Move(t', side', price, qty) =>
      MoveSends(client, cfgs[t'], w.desk, t', side', price, qty);
      if t != t' || side != side' {
        OtherSlot(t, side, t', side');
      }
    case Hear =>
      if w.responses != [] {
        ZeroHearsOne(client, cfgs, w, t, side);
      }
    case Serve =>
    case Other(_) =>
    case Quoted(_, _, _) =>
  }

  /** Hearing a response acts on the slot it is about. */
  lemma HearActs(d: Desk, r: Response, t: nat, side: Side)
    requires d.Sized() && t < ME_MAX_TICKERS && r.ticker < ME_MAX_TICKERS
    ensures var i := ClientOrders.SlotOf(t, side);
            OnOrderUpdate(d, r).slots[i]
            == if r.ticker == t && r.side == side then UpdateSlot(d.slots[i], r) else d.slots[i]
  {
    hide AddFill, UpdateSlot;
    if r.ticker != t || r.side != side {
      OtherSlot(t, side, r.ticker, r.side);
    }
  }

  lemma ZeroHearsOne(client: nat, cfgs: seq<RiskCfg>, w: World, t: nat, side: Side)
    requires |cfgs| == ME_MAX_TICKERS && Inv(client, cfgs, w) && t < ME_MAX_TICKERS && IsTradeSide(side)
    requires HoldsZero(Slot(w, t, side)) && w.responses != []
    ensures var w' := Step(client, cfgs, w, Hear); Shaped(w') && StillZero(Slot(w, t, side), Slot(w', t, side))
  {
    hide PlacedAll, LimitAll, GoodBooks, Agree, OnOrderUpdate, Asked, Mine, Owned;
    var r, rest := w.responses[0], w.responses[1..];
    var o, asked, p := Slot(w, t, side), Asked(w.requests, t, side), Mine(w.responses, client, t, side);
    assert AgreeAt(client, w, t, side) && w.responses == [r] + rest;
    ZeroHears(client, o, asked, p, Owned(w.books[t].On(side), client));
    MineAppend([r], rest, client, t, side);
    MineOne(r, client, t, side);
    if r.ref.client == client && r.ticker < ME_MAX_TICKERS {
      StaysShaped(w.desk, r);
      HearActs(w.desk, r, t, side);
    }
  }

  lemma StaysShaped(d: Desk, r: Response)
    requires d.Sized() && r.ticker < ME_MAX_TICKERS
    ensures OnOrderUpdate(d, r).Sized() && OnOrderUpdate(d, r).nextId == d.nextId
  {
  }

  lemma {:induction false} RunOnwards(client: nat, cfgs: seq<RiskCfg>, es: seq<Event>, more: seq<Event>, t: nat,
          side: Side)
    requires AllSmall(cfgs) && AllSensible(es) && AllSensible(more) && t < ME_MAX_TICKERS && IsTradeSide(side)
    requires Shaped(Run(client, cfgs, es)) && HoldsZero(Slot(Run(client, cfgs, es), t, side))
    ensures AllSensible(es + more)
    ensures var w, w' := Run(client, cfgs, es), Run(client, cfgs, es + more);
            Shaped(w') && StillZero(Slot(w, t, side), Slot(w', t, side))
    decreases |more|
  {
    hide Inv, Step;
    if more == [] {
      assert es + more == es;
    } else {
      var n := |more| - 1;
      assert (es + more)[..|es + more| - 1] == es + more[..n];
      RunOnwards(client, cfgs, es, more[..n], t, side);
      RunKeeps(client, cfgs, es + more[..n]);
      ZeroStays(client, cfgs, Run(client, cfgs, es + more[..n]), more[n], t, side);
    }
  }

  /** A slot that holds an order of quantity zero is lost for ever: whatever happens after any run, in any
      order, it goes on holding that order, which never rests, and never becomes free for another; once
      it waits for the cancel, it waits for ever. */
  lemma ZeroSticks(client: nat, cfgs: seq<RiskCfg>, es: seq<Event>, more: seq<Event>, t: nat, side: Side)
    requires AllSmall(cfgs) && AllSensible(es) && AllSensible(more) && t < ME_MAX_TICKERS && IsTradeSide(side)
    requires Shaped(Run(client, cfgs, es)) && HoldsZero(Slot(Run(client, cfgs, es), t, side))
    ensures AllSensible(es + more)
    ensures var w, w' := Run(client, cfgs, es), Run(client, cfgs, es + more);
            && Shaped(w') && StillZero(Slot(w, t, side), Slot(w', t, side))
            && Owned(w'.books[t].On(side), client) == []
  {
    hide Agree;
    RunOnwards(client, cfgs, es, more, t, side);
    RunKeeps(client, cfgs, es + more);
    var w' := Run(client, cfgs, es + more);
    assert AgreeAt(client, w', t, side);
    ZeroHears(client, Slot(w', t, side), Asked(w'.requests, t, side), Mine(w'.responses, client, t, side),
              Owned(w'.books[t].On(side), client));
  }

  // ----- runs without zero quantities -----

  ghost predicate NoZeros(w: World)
    requires Shaped(w)
  {
    forall t: nat, side: Side :: t < ME_MAX_TICKERS && IsTradeSide(side) ==> !HoldsZero(Slot(w, t, side))
  }

  /** No order of quantity zero is asked for. */
  ghost predicate AllPositive(es: seq<Event>) {
    forall i :: 0 <= i < |es| && es[i].Move? ==> es[i].qty > 0
  }

  lemma MoveKeepsPositive(client: nat, cfgs: seq<RiskCfg>, w: World, e: Event)
    requires |cfgs| == ME_MAX_TICKERS && Shaped(w) && Sensible(e) && e.Move? && e.qty > 0 && NoZeros(w)
    ensures var w' := Step(client, cfgs, w, e); Shaped(w') && NoZeros(w')
  {
    hide MoveOrder, CheckPreTradeRisk;
    var w' := Step(client, cfgs, w, e);
    MoveSends(client, cfgs[e.ticker], w.desk, e.ticker, e.side, e.price, e.qty);
    forall t: nat, side: Side | t < ME_MAX_TICKERS && IsTradeSide(side)
      ensures !HoldsZero(Slot(w', t, side))
    {
      assert !HoldsZero(Slot(w, t, side));
      if t != e.ticker || side != e.side {
        OtherSlot(t, side, e.ticker, e.side);
      }
    }
  }

  /** A fill either leaves something or frees the slot, and nothing else changes a quantity. */
  lemma UpdateKeepsPositive(client: nat, o: OMOrder, asked: seq<Request>, p: seq<Response>, rests: seq<BookOrder>)
    requires Agree(client, o, asked, p, rests) && p != [] && !HoldsZero(o)
    ensures !HoldsZero(UpdateSlot(o, p[0]))
  {
    hide Agree;
    HearResponse(client, o, asked, p, rests);
  }

  lemma HearKeepsPositive(client: nat, cfgs: seq<RiskCfg>, w: World, t: nat, side: Side)
    requires |cfgs| == ME_MAX_TICKERS && Inv(client, cfgs, w) && t < ME_MAX_TICKERS && IsTradeSide(side)
    requires w.responses != [] && !HoldsZero(Slot(w, t, side))
    ensures var w' := Step(client, cfgs, w, Hear); Shaped(w') && !HoldsZero(Slot(w', t, side))
  {
    hide PlacedAll, LimitAll, GoodBooks, Agree, OnOrderUpdate, Asked, Mine, Owned, UpdateSlot;
    var r, rest := w.responses[0], w.responses[1..];
    var o, asked, p := Slot(w, t, side), Asked(w.requests, t, side), Mine(w.responses, client, t, side);
    assert AgreeAt(client, w, t, side) && w.responses == [r] + rest;
    MineAppend([r], rest, client, t, side);
    MineOne(r, client, t, side);
    if r.ref.client == client && r.ticker < ME_MAX_TICKERS {
      StaysShaped(w.desk, r);
      HearActs(w.desk, r, t, side);
      if r.ticker == t && r.side == side {
        UpdateKeepsPositive(client, o, asked, p, Owned(w.books[t].On(side), client));
      }
    }
  }

  lemma SameSlots(w: World, w': World)
    requires Shaped(w) && NoZeros(w) && w'.owners == w.owners && |w'.books| == |w.books|
    requires w'.desk.slots == w.desk.slots && |w'.desk.positions| == |w.desk.positions|
    requires w'.desk.nextId == w.desk.nextId
    ensures Shaped(w') && NoZeros(w')
  {
    forall t: nat, side: Side | t < ME_MAX_TICKERS && IsTradeSide(side)
      ensures !HoldsZero(Slot(w', t, side))
    {
      assert !HoldsZero(Slot(w, t, side));
    }
  }

  lemma StepKeepsPositive(client: nat, cfgs: seq<RiskCfg>, w: World, e: Event)
    requires AllSmall(cfgs) && Inv(client, cfgs, w) && Sensible(e) && (e.Move? ==> e.qty > 0) && NoZeros(w)
    ensures var w' := Step(client, cfgs, w, e); Shaped(w') && NoZeros(w')
  {
    hide AgreeAll, PlacedAll, LimitAll, GoodBooks, MoveOrder, Process, OnOrderUpdate, HoldsZero;
    var w' := Step(client, cfgs, w, e);
    if !e.Move? && !e.Hear? {
      SameSlots(w, w');
    }
    match e
    case Move(_, _, _, _) => MoveKeepsPositive(client, cfgs, w, e);
    case Hear =>
      if w.responses != [] {
        forall t: nat, side: Side | t < ME_MAX_TICKERS && IsTradeSide(side)
          ensures Shaped(Step(client, cfgs, w, e)) && !HoldsZero(Slot(Step(client, cfgs, w, e), t, side))
        {
          HearKeepsPositive(client, cfgs, w, t, side);
        }
        HearKeepsPositive(client, cfgs, w, 0, BUY);
      } else {
        SameSlots(w, w');
      }
    case Serve =>
    case Other(_) =>
    case Quoted(_, _, _) =>
  }

  lemma {:induction false} RunHasNoZeros(client: nat, cfgs: seq<RiskCfg>, es: seq<Event>)
    requires AllSmall(cfgs) && AllSensible(es) && AllPositive(es)
    ensures Shaped(Run(client, cfgs, es)) && NoZeros(Run(client, cfgs, es))
    decreases |es|
  {
    hide Inv, Step, NoZeros;
    if es == [] {
      StartHasNoZeros();
    } else {
      RunHasNoZeros(client, cfgs, es[..|es| - 1]);
      RunKeeps(client, cfgs, es[..|es| - 1]);
      StepKeepsPositive(client, cfgs, Run(client, cfgs, es[..|es| - 1]), es[|es| - 1]);
    }
  }

  lemma StartHasNoZeros()
    ensures Shaped(Start()) && NoZeros(Start())
  {
  }

  /** If the client never asks for a quantity of zero the agreement has no exception: over every run a slot
      with nothing on its way in either direction is idle and nothing rests for it, or is live and its
      order rests with the same id, price and quantity. */
  lemma PositiveRunsAgree(client: nat, cfgs: seq<RiskCfg>, es: seq<Event>, t: nat, side: Side)
    requires AllSmall(cfgs) && AllSensible(es) && AllPositive(es) && t < ME_MAX_TICKERS && IsTradeSide(side)
    ensures var w := Run(client, cfgs, es);
            Shaped(w) &&
            var o, rests := Slot(w, t, side), Owned(w.books[t].On(side), client);
            Asked(w.requests, t, side) == [] && Mine(w.responses, client, t, side) == [] ==>
              || (o.Idle() && rests == [])
              || (o.state == LIVE && |rests| == 1 && rests[0].key == OrderRef(client, o.id)
                  && rests[0].price == o.price && rests[0].qty == o.qty)
  {
    hide Run;
    RunHasNoZeros(client, cfgs, es);
    ClientAndExchangeAgree(client, cfgs, es, t, side);
    assert !HoldsZero(Slot(Run(client, cfgs, es), t, side));
  }

  /** What the exchange makes of such an order: it is acknowledged and gone, and the cancel that follows
      is refused without naming a side, so that the refusal reaches no slot. */
  lemma ZeroIsRefused(client: nat, b: Book, o: OMOrder)
    requires Good(b) && IsTradeSide(o.side) && o.qty == 0 && o.state == PENDING_NEW
    requires Lookup(b, OrderRef(client, o.id)) == None
    ensures var served := Process(b, NewRequest(client, o));
            var believed := UpdateSlot(o, served.responses[0]);
            var refused := Process(served.book, CancelRequest(client, believed));
            && |served.responses| == 1 && believed.state == LIVE
            && served.book.bids == b.bids && served.book.asks == b.asks
            && refused.book == served.book && Mine(refused.responses, client, o.ticker, o.side) == []
            && refused.responses == [RejectedResponse(o.ticker, OrderRef(client, o.id))]
  {
    hide Good;
    var served := Process(b, NewRequest(client, o));
    assert served.responses == [AcceptedResponse(o.ticker, Incoming(b, OrderRef(client, o.id), o.side, o.price, 0))];
    assert Lookup(served.book, OrderRef(client, o.id)) == Lookup(b, OrderRef(client, o.id));
    MineOne(RejectedResponse(o.ticker, OrderRef(client, o.id)), client, o.ticker, o.side);
  }
}
