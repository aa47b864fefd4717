/** The trading client's orders: one slot for each instrument and side, the risk gate in front of
    new orders, and the reaction to responses. */
module ClientOrders {
  import opened Common
  import opened Positions

  datatype OMOrderState = NEVER_USED | PENDING_NEW | LIVE | PENDING_CANCEL | DEAD

  datatype OMOrder = OMOrder(ticker: nat, id: nat, side: Side, price: int, qty: nat, state: OMOrderState)
  {
    predicate Idle() {
      state == NEVER_USED || state == DEAD
    }
  }

  const NO_ORDER := OMOrder(TICKER_ID_INVALID, ORDER_ID_INVALID, INVALID, PRICE_INVALID, QTY_INVALID, NEVER_USED)

  datatype RiskCfg = RiskCfg(maxOrderSize: nat, maxPosition: nat, maxLoss: real)

  datatype RiskCheckResult = ORDER_TOO_LARGE | POSITION_TOO_LARGE | LOSS_TOO_LARGE | ALLOWED

  /** The absolute value of a 32-bit number, in 32 bits: the smallest one stays as it is. That and every
      overflow of a signed number is undefined in C++; numbers wrap here. */
  function Abs32(x: int): int {
    if x == -0x8000_0000 then x else Abs(x)
  }

  /** The position after a complete fill as the gate computes it, every step in 32 bits. */
  function GateSum(position: int, side: Side, qty: nat): int {
    ToInt32(position + ToInt32(SideToValue(side) * ToInt32(qty)))
  }

  /** The gate in front of every new order, with the source's casts to 32-bit integers. */
  function CheckPreTradeRisk(p: Position, cfg: RiskCfg, side: Side, qty: nat): RiskCheckResult {
    if qty > cfg.maxOrderSize then ORDER_TOO_LARGE
    else if Abs32(GateSum(p.position, side, qty)) > ToInt32(cfg.maxPosition) then POSITION_TOO_LARGE
    else if p.totalPnl < cfg.maxLoss then LOSS_TOO_LARGE
    else ALLOWED
  }

  /** The position after a complete fill. */
  function PositionAfter(position: int, side: Side, qty: nat): int {
    position + SideToValue(side) * qty
  }

  /** What the gate is for: an order of allowed size whose complete fill keeps the position within the
      limit, while the loss is allowed. */
  predicate Permitted(p: Position, cfg: RiskCfg, side: Side, qty: nat) {
    qty <= cfg.maxOrderSize && Abs(PositionAfter(p.position, side, qty)) <= cfg.maxPosition && p.totalPnl >= cfg.maxLoss
  }

  predicate IsInt32(x: int) {
    -0x8000_0000 <= x < 0x8000_0000
  }

  /** The gate lets through exactly what is permitted, for every 32-bit position within the limit and every
      32-bit quantity. */
  ghost predicate GateIsExact(cfg: RiskCfg) {
    forall p: Position, side: Side, qty: nat ::
      IsInt32(p.position) && Abs(p.position) <= cfg.maxPosition && IsTradeSide(side) && qty < INT32_RANGE ==>
        (CheckPreTradeRisk(p, cfg, side, qty) == ALLOWED <==> Permitted(p, cfg, side, qty))
  }

  /** Sizes for which an order cannot take a position within the limit out of the 32-bit range. */
  predicate SmallLimits(cfg: RiskCfg) {
    cfg.maxOrderSize + cfg.maxPosition < 0x8000_0000
  }

  /** Within small limits nothing overflows. */
  lemma AllowedIsPermitted(p: Position, cfg: RiskCfg, side: Side, qty: nat)
    requires SmallLimits(cfg) && Abs(p.position) <= cfg.maxPosition && IsTradeSide(side)
    ensures CheckPreTradeRisk(p, cfg, side, qty) == ALLOWED <==> Permitted(p, cfg, side, qty)
  {
    if qty <= cfg.maxOrderSize {
      assert GateSum(p.position, side, qty) == PositionAfter(p.position, side, qty);
    }
  }

  /** What the gate answers, and why: the first of the three limits that the order would break. */
  lemma GateTellsWhy(p: Position, cfg: RiskCfg, side: Side, qty: nat)
    requires SmallLimits(cfg) && Abs(p.position) <= cfg.maxPosition && IsTradeSide(side)
    ensures var after := if side == BUY then p.position + qty else p.position - qty;
            var small, within := qty <= cfg.maxOrderSize, -(cfg.maxPosition as int) <= after <= cfg.maxPosition;
            match CheckPreTradeRisk(p, cfg, side, qty)
            case ORDER_TOO_LARGE => !small
            case POSITION_TOO_LARGE => small && !within
            case LOSS_TOO_LARGE => small && within && p.totalPnl < cfg.maxLoss
            case ALLOWED => small && within && p.totalPnl >= cfg.maxLoss
  {
    if qty <= cfg.maxOrderSize {
      assert GateSum(p.position, side, qty) == PositionAfter(p.position, side, qty);
    }
  }

  /** Without small limits an order gets through that is not permitted: at the position limit the order that
      would take the position to 2^31. The gate sees -2^31, whose absolute value is no larger. */
  lemma RiskGateCanBePassed(cfg: RiskCfg)
    requires !SmallLimits(cfg) && cfg.maxPosition < 0x8000_0000
    ensures var p, qty := FLAT.(position := cfg.maxPosition, totalPnl := cfg.maxLoss), 0x8000_0000 - cfg.maxPosition;
            CheckPreTradeRisk(p, cfg, BUY, qty) == ALLOWED && !Permitted(p, cfg, BUY, qty)
  {
    assert GateSum(cfg.maxPosition, BUY, 0x8000_0000 - cfg.maxPosition) == -0x8000_0000;
  }

  /** A position limit of 2^31 or more reads as a negative number, and not even nothing may be bought. */
  lemma NothingPasses(cfg: RiskCfg)
    requires 0x8000_0000 <= cfg.maxPosition < INT32_RANGE
    ensures var p := FLAT.(totalPnl := cfg.maxLoss);
            CheckPreTradeRisk(p, cfg, BUY, 0) != ALLOWED && Permitted(p, cfg, BUY, 0)
  {
  }

  /** The 32-bit arithmetic of the gate (risk_manager.cpp:19-22) is exact, for every position within the
      limit, if and only if the two limits add up to less than 2^31. */
  lemma RiskIsExact(cfg: RiskCfg)
    requires cfg.maxOrderSize < INT32_RANGE && cfg.maxPosition < INT32_RANGE
    ensures GateIsExact(cfg) <==> SmallLimits(cfg)
  {
    hide CheckPreTradeRisk, Permitted;
    if SmallLimits(cfg) {
      forall p: Position, side: Side, qty: nat
        | IsInt32(p.position) && Abs(p.position) <= cfg.maxPosition && IsTradeSide(side) && qty < INT32_RANGE
        ensures CheckPreTradeRisk(p, cfg, side, qty) == ALLOWED <==> Permitted(p, cfg, side, qty)
      {
        AllowedIsPermitted(p, cfg, side, qty);
      }
    } else if cfg.maxPosition < 0x8000_0000 {
      RiskGateCanBePassed(cfg);
    } else {
      NothingPasses(cfg);
    }
  }

  /** That is when no such order can take a position out of the 32-bit range. */
  lemma SumFits(cfg: RiskCfg)
    ensures SmallLimits(cfg) <==>
            forall position: int, side: Side, qty: nat ::
              Abs(position) <= cfg.maxPosition && qty <= cfg.maxOrderSize && IsTradeSide(side) ==>
                IsInt32(PositionAfter(position, side, qty))
  {
    if !SmallLimits(cfg) {
      assert !IsInt32(PositionAfter(cfg.maxPosition, BUY, cfg.maxOrderSize));
    }
  }

  /** Three slots for each instrument: SELL, INVALID and BUY. */
  function SideToIndex(side: Side): nat {
    match side
    case SELL => 0
    case INVALID => 1
    case BUY => 2
  }

  const NUM_SLOTS: nat := 3 * ME_MAX_TICKERS

  function SlotOf(ticker: nat, side: Side): nat {
    3 * ticker + SideToIndex(side)
  }

  /** The client: its slots, its positions, and the next order id to use. */
  datatype Desk = Desk(slots: seq<OMOrder>, positions: seq<Position>, nextId: nat)
  {
    predicate Sized() {
      |slots| == NUM_SLOTS && |positions| == ME_MAX_TICKERS
    }
  }

  function NewDesk(): Desk {
    Desk(seq(NUM_SLOTS, _ => NO_ORDER), seq(ME_MAX_TICKERS, _ => FLAT), 1)
  }

  /** The client and what it has sent. */
  datatype Sent = Sent(desk: Desk, requests: seq<Request>)

  function NewRequest(client: nat, o: OMOrder): Request {
    Request(NEW, OrderRef(client, o.id), o.ticker, o.side, o.price, o.qty)
  }

  function CancelRequest(client: nat, o: OMOrder): Request {
    Request(CANCEL, OrderRef(client, o.id), o.ticker, o.side, o.price, o.qty)
  }

  function NewOrder(client: nat, d: Desk, ticker: nat, price: int, side: Side, qty: nat): Sent
    requires d.Sized() && ticker < ME_MAX_TICKERS
  {
    var o := OMOrder(ticker, d.nextId, side, price, qty, PENDING_NEW);
    Sent(d.(slots := d.slots[SlotOf(ticker, side) := o], nextId := d.nextId + 1), [NewRequest(client, o)])
  }

  function CancelOrder(client: nat, d: Desk, slot: nat): Sent
    requires d.Sized() && slot < NUM_SLOTS
  {
    Sent(d.(slots := d.slots[slot := d.slots[slot].(state := PENDING_CANCEL)]), [CancelRequest(client, d.slots[slot])])
  }

  /** Brings the order of one slot towards a wanted price and quantity. */
  function MoveOrder(client: nat, cfg: RiskCfg, d: Desk, ticker: nat, price: int, side: Side, qty: nat): Sent
    requires d.Sized() && ticker < ME_MAX_TICKERS
  {
    var o := d.slots[SlotOf(ticker, side)];
    match o.state
    case LIVE => if o.price != price || o.qty != qty then CancelOrder(client, d, SlotOf(ticker, side)) else Sent(d, [])
    case NEVER_USED => TryNewOrder(client, cfg, d, ticker, price, side, qty)
    case DEAD => TryNewOrder(client, cfg, d, ticker, price, side, qty)
    case PENDING_NEW => Sent(d, [])
    case PENDING_CANCEL => Sent(d, [])
  }

  function TryNewOrder(client: nat, cfg: RiskCfg, d: Desk, ticker: nat, price: int, side: Side, qty: nat): Sent
    requires d.Sized() && ticker < ME_MAX_TICKERS
  {
    if price != PRICE_INVALID && CheckPreTradeRisk(d.positions[ticker], cfg, side, qty) == ALLOWED
    then NewOrder(client, d, ticker, price, side, qty) else Sent(d, [])
  }

  /** Quotes both sides.
      Repair: order_manager.cpp:118 quotes the ask at the bid price. */
  function MoveOrders(client: nat, cfg: RiskCfg, d: Desk, ticker: nat, bid: int, ask: int, clip: nat): Sent
    requires d.Sized() && ticker < ME_MAX_TICKERS
  {
    var s := MoveOrder(client, cfg, d, ticker, bid, BUY, clip);
    var s' := MoveOrder(client, cfg, s.desk, ticker, ask, SELL, clip);
    Sent(s'.desk, s.requests + s'.requests)
  }

  function MoveOrdersAsWritten(client: nat, cfg: RiskCfg, d: Desk, ticker: nat, bid: int, ask: int, clip: nat): Sent
    requires d.Sized() && ticker < ME_MAX_TICKERS
  {
    MoveOrders(client, cfg, d, ticker, bid, bid, clip)
  }

  // ----- what quoting does -----

  /** A live order with another price or quantity is cancelled, by its own id, and waits for the answer. */
  predicate Pulls(client: nat, o: OMOrder, o': OMOrder, sent: seq<Request>) {
    && sent == [Request(CANCEL, OrderRef(client, o.id), o.ticker, o.side, o.price, o.qty)]
    && o' == OMOrder(o.ticker, o.id, o.side, o.price, o.qty, PENDING_CANCEL)
  }

  /** The wanted order is asked for, and the slot holds it and waits for the answer. */
  predicate Places(client: nat, want: OMOrder, o': OMOrder, sent: seq<Request>) {
    && sent == [Request(NEW, OrderRef(client, want.id), want.ticker, want.side, want.price, want.qty)]
    && o' == want
  }

  /** What bringing a slot towards the order `want` comes to: it turns from `o` into `o'`. */
  predicate Brings(client: nat, o: OMOrder, want: OMOrder, allowed: bool, o': OMOrder, sent: seq<Request>) {
    if o.state == LIVE && (o.price != want.price || o.qty != want.qty) then Pulls(client, o, o', sent)
    else if (o.state == NEVER_USED || o.state == DEAD) && want.price != PRICE_INVALID && allowed
    then Places(client, want, o', sent)
    else o' == o && sent == []
  }

  /** How many order ids a slot has used up. */
  function Used(sent: seq<Request>): nat {
    if sent != [] && sent[0].kind == NEW then 1 else 0
  }

  /** The order a side is quoted with. */
  function Quote(ticker: nat, id: nat, side: Side, price: int, qty: nat): OMOrder {
    OMOrder(ticker, id, side, price, qty, PENDING_NEW)
  }

  /** Moving an order acts on its own slot, and on nothing else. */
  lemma MoveOrderDoes(client: nat, cfg: RiskCfg, d: Desk, ticker: nat, price: int, side: Side, qty: nat)
    requires d.Sized() && ticker < ME_MAX_TICKERS
    ensures var s, i := MoveOrder(client, cfg, d, ticker, price, side, qty), SlotOf(ticker, side);
            && s.desk.Sized() && s.desk.positions == d.positions && s.desk.nextId == d.nextId + Used(s.requests)
            && (forall j :: 0 <= j < NUM_SLOTS && j != i ==> s.desk.slots[j] == d.slots[j])
            && Brings(client, d.slots[i], Quote(ticker, d.nextId, side, price, qty),
                      CheckPreTradeRisk(d.positions[ticker], cfg, side, qty) == ALLOWED, s.desk.slots[i], s.requests)
  {
    hide CheckPreTradeRisk;
  }

  /** Quoting brings the bid slot towards `bid` and then the ask slot towards `ask`, both for `clip`, and
      touches no other slot; what is sent for the bid goes first. */
  lemma MoveOrdersDoes(client: nat, cfg: RiskCfg, d: Desk, ticker: nat, bid: int, ask: int, clip: nat)
          returns (forBid: seq<Request>, forAsk: seq<Request>)
    requires d.Sized() && ticker < ME_MAX_TICKERS
    ensures var s, p := MoveOrders(client, cfg, d, ticker, bid, ask, clip), d.positions[ticker];
            var b, a := SlotOf(ticker, BUY), SlotOf(ticker, SELL);
            && s.desk.Sized() && s.desk.positions == d.positions && s.requests == forBid + forAsk && a != b
            && s.desk.nextId == d.nextId + Used(forBid) + Used(forAsk)
            && (forall j :: 0 <= j < NUM_SLOTS && j != a && j != b ==> s.desk.slots[j] == d.slots[j])
            && Brings(client, d.slots[b], Quote(ticker, d.nextId, BUY, bid, clip),
                      CheckPreTradeRisk(p, cfg, BUY, clip) == ALLOWED, s.desk.slots[b], forBid)
            && Brings(client, d.slots[a], Quote(ticker, d.nextId + Used(forBid), SELL, ask, clip),
                      CheckPreTradeRisk(p, cfg, SELL, clip) == ALLOWED, s.desk.slots[a], forAsk)
  {
    hide MoveOrder, CheckPreTradeRisk, Brings;
    var s := MoveOrder(client, cfg, d, ticker, bid, BUY, clip);
    MoveOrderDoes(client, cfg, d, ticker, bid, BUY, clip);
    MoveOrderDoes(client, cfg, s.desk, ticker, ask, SELL, clip);
    forBid, forAsk := s.requests, MoveOrder(client, cfg, s.desk, ticker, ask, SELL, clip).requests;
  }

  /** What the ask slot would be asked to do for a price. */
  datatype Wish = NOTHING | PULL | PLACE(price: int)

  function Wanted(o: OMOrder, allowed: bool, price: int, qty: nat): Wish {
    if o.state == LIVE then (if o.price != price || o.qty != qty then PULL else NOTHING)
    else if o.Idle() && allowed && price != PRICE_INVALID then PLACE(price)
    else NOTHING
  }

  /** Quoting the ask at the bid price goes unnoticed exactly when the two prices are equal, the ask
      slot is waiting for an answer, it is idle and the gate refuses the order, or it is live and either
      has the wrong quantity, so that it is pulled anyway, or is quoted at neither price. */
  lemma MoveOrdersAgree(client: nat, cfg: RiskCfg, d: Desk, ticker: nat, bid: int, ask: int, clip: nat)
    requires d.Sized() && ticker < ME_MAX_TICKERS
    ensures var o := d.slots[SlotOf(ticker, SELL)];
            MoveOrdersAsWritten(client, cfg, d, ticker, bid, ask, clip)
            == MoveOrders(client, cfg, d, ticker, bid, ask, clip)
            <==>
            || bid == ask
            || o.state == PENDING_NEW || o.state == PENDING_CANCEL
            || (o.Idle() && CheckPreTradeRisk(d.positions[ticker], cfg, SELL, clip) != ALLOWED)
            || (o.state == LIVE && (o.qty != clip || (bid != o.price && ask != o.price)))
  {
    var s := MoveOrder(client, cfg, d, ticker, bid, BUY, clip);
    var o := s.desk.slots[SlotOf(ticker, SELL)];
    assert o == d.slots[SlotOf(ticker, SELL)] && s.desk.positions == d.positions;
    var a, b := MoveOrder(client, cfg, s.desk, ticker, bid, SELL, clip),
        MoveOrder(client, cfg, s.desk, ticker, ask, SELL, clip);
    assert (s.requests + a.requests)[|s.requests|..] == a.requests;
    assert (s.requests + b.requests)[|s.requests|..] == b.requests;
    SlotWants(client, cfg, s.desk, ticker, bid, clip);
    SlotWants(client, cfg, s.desk, ticker, ask, clip);
  }

  lemma SlotWants(client: nat, cfg: RiskCfg, d: Desk, ticker: nat, price: int, qty: nat)
    requires d.Sized() && ticker < ME_MAX_TICKERS
    ensures var o, s := d.slots[SlotOf(ticker, SELL)], MoveOrder(client, cfg, d, ticker, price, SELL, qty);
            match Wanted(o, CheckPreTradeRisk(d.positions[ticker], cfg, SELL, qty) == ALLOWED, price, qty)
            case NOTHING => s == Sent(d, [])
            case PULL => s == CancelOrder(client, d, SlotOf(ticker, SELL)) && s.requests[0].kind == CANCEL
            case PLACE(p) => p == price && s == NewOrder(client, d, ticker, price, SELL, qty)
                             && s.requests[0].kind == NEW && s.requests[0].price == price
  {
  }

  /** The order manager's reaction to a response. */
  function UpdateSlot(o: OMOrder, r: Response): OMOrder {
    match r.kind
    case ACCEPTED => o.(state := LIVE)
    case CANCELED => o.(state := DEAD)
    case FILLED => o.(qty := r.leavesQty, state := if r.leavesQty == 0 then DEAD else o.state)
    case CANCEL_REJECTED => o
  }

  function FillOf(r: Response): Fill {
    Fill(r.side, r.price, r.execQty)
  }

  /** A new best bid and offer revalues the position. */
  function OnQuote(d: Desk, ticker: nat, bid: int, ask: int): Desk
    requires d.Sized() && ticker < ME_MAX_TICKERS
  {
    d.(positions := d.positions[ticker := UpdateBBO(d.positions[ticker], bid, ask)])
  }

  /** The trade engine's reaction: a fill goes to the position first, then every response to its slot. */
  function OnOrderUpdate(d: Desk, r: Response): Desk
    requires d.Sized() && r.ticker < ME_MAX_TICKERS
  {
    var i := SlotOf(r.ticker, r.side);
    var d' := if r.kind != FILLED then d
              else d.(positions := d.positions[r.ticker := AddFill(d.positions[r.ticker], FillOf(r))]);
    d'.(slots := d'.slots[i := UpdateSlot(d'.slots[i], r)])
  }

  /** What hearing a response does to the desk: an acknowledgement makes the order live, a cancellation or a last
      fill ends it, a fill leaves it what the response says is left, and a refusal changes nothing; the order stays
      the same otherwise, no other slot changes, and only a fill changes a position, that of its instrument. */
  lemma HearingDoes(d: Desk, r: Response)
    requires d.Sized() && r.ticker < ME_MAX_TICKERS
    ensures var d', i := OnOrderUpdate(d, r), SlotOf(r.ticker, r.side);
            var o, o' := d.slots[i], d'.slots[i];
            && d'.Sized() && d'.nextId == d.nextId
            && (forall j :: 0 <= j < NUM_SLOTS && j != i ==> d'.slots[j] == d.slots[j])
            && o'.ticker == o.ticker && o'.id == o.id && o'.side == o.side && o'.price == o.price
            && o'.qty == (if r.kind == FILLED then r.leavesQty else o.qty)
            && o'.state == (if r.kind == ACCEPTED then LIVE
                            else if r.kind == CANCELED || (r.kind == FILLED && r.leavesQty == 0) then DEAD
                            else o.state)
            && (forall t :: 0 <= t < ME_MAX_TICKERS && (t != r.ticker || r.kind != FILLED) ==>
                  d'.positions[t] == d.positions[t])
  {
    hide AddFill;
  }
}
