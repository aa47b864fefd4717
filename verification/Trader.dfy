/** The trading engine's objects: positions, order slots and the reaction to responses, proved
    against `Positions` and `ClientOrders`. */
module Trader {
  import opened Common
  import Positions
  import opened ClientOrders

  class PositionInfo {
    var position: int
    var realPnl: real
    var unrealPnl: real
    var totalPnl: real
    var openVwap: seq<real>
    var volume: nat

    ghost predicate Valid()
      reads this
    {
      |openVwap| == 3
    }

    ghost function State(): Positions.Position
      requires Valid()
      reads this
    {
      Positions.Position(position, realPnl, unrealPnl, totalPnl, openVwap[SideToIndex(BUY)],
          openVwap[SideToIndex(SELL)], volume)
    }

    constructor ()
      ensures Valid() && State() == Positions.FLAT
    {
      position, volume, openVwap := 0, 0, [0.0, 0.0, 0.0];
      realPnl, unrealPnl, totalPnl := 0.0, 0.0, 0.0;
    }

    /** Moves the position and the accumulators by one fill. */
    method Book(side: Side, price: int, qty: nat)
      requires Valid() && IsTradeSide(side)
      modifies this
      ensures Valid() && State() == Positions.Booked(old(State()), Positions.Fill(side, price, qty))
    {
      hide Positions.Realised, Positions.ToInt32, Positions.Times, Positions.Per, Positions.Opens, Positions.Flips;
      var oldPosition := position;
      var i, j := SideToIndex(side), SideToIndex(Opposite(side));
      Positions.NotFlat(oldPosition, side);
      position := Positions.ToInt32(position + Positions.SideToValue(side) * qty);
      volume := (volume + qty) % Positions.INT32_RANGE;
      if Positions.Opens(oldPosition, side) {
        openVwap := openVwap[i := openVwap[i] + Positions.Times(price as real, qty)];
      } else {
        var oppSideVwap := Positions.Per(openVwap[j], Positions.Abs(oldPosition));
        var closed := if Positions.ToInt32(qty) < Positions.Abs(oldPosition) then Positions.ToInt32(qty)
            else Positions.Abs(oldPosition);
        realPnl := realPnl + Positions.Realised(side, closed, oppSideVwap, price);
        if Positions.Flips(position, oldPosition) {
          openVwap := openVwap[i := Positions.Times(price as real, Positions.Abs(position))][j := 0.0];
        } else {
          // Repair: position_keeper.hpp:51-60 leaves the opposite accumulator as it is.
          openVwap := openVwap[j := Positions.Times(oppSideVwap, Positions.Abs(position))];
        }
      }
    }

    /** Values the open position at a price. */
    method Revalue(price: real)
      requires Valid()
      modifies this`unrealPnl, this`totalPnl
      ensures Valid()
      ensures var unreal := Positions.Unrealised(old(State()), price);
              State() == old(State()).(unrealPnl := unreal, totalPnl := unreal + old(State()).realPnl)
    {
      if position > 0 {
        unrealPnl := (price - openVwap[SideToIndex(BUY)] / position as real) * position as real;
      } else if position < 0 {
        var n := Positions.Abs(position);
        unrealPnl := (openVwap[SideToIndex(SELL)] / n as real - price) * n as real;
      } else {
        unrealPnl := 0.0;
      }
      totalPnl := unrealPnl + realPnl;
    }

    method AddFill(r: Response)
      requires Valid() && IsTradeSide(r.side)
      modifies this
      ensures Valid() && State() == Positions.AddFill(old(State()), FillOf(r))
    {
      hide Positions.Booked, Positions.Unrealised;
      Book(r.side, r.price, r.execQty);
      if position == 0 {
        openVwap := openVwap[SideToIndex(BUY) := 0.0][SideToIndex(SELL) := 0.0];
      }
      // Repair: position_keeper.hpp:75 is not reached when the position is flat.
      Revalue(r.price as real);
    }

    method UpdateBBO(bid: int, ask: int)
      requires Valid()
      modifies this`unrealPnl, this`totalPnl
      ensures Valid() && State() == Positions.UpdateBBO(old(State()), bid, ask)
    {
      hide Positions.Unrealised;
      if position != 0 && bid != PRICE_INVALID && ask != PRICE_INVALID {
        Revalue((bid + ask) as real * 0.5);
      }
    }
  }

  /** The client's slots, ids and positions, and the queue of requests it writes to. */
  class OrderManager {
    const clientId: nat
    const cfgs: seq<RiskCfg>
    const infos: seq<PositionInfo>
    const slots: array<OMOrder>
    var nextOrderId: nat
    var sent: seq<Request>

    ghost predicate Valid()
      reads this, infos, slots
    {
      && |cfgs| == |infos| == ME_MAX_TICKERS && slots.Length == NUM_SLOTS
      && (forall i, j :: 0 <= i < j < |infos| ==> infos[i] != infos[j])
      && (forall i :: 0 <= i < |infos| ==> infos[i].Valid())
    }

    ghost function State(): Desk
      requires Valid()
      reads this, infos, slots
    {
      Desk(slots[..], seq(|infos|, i requires 0 <= i < |infos| && infos[i].Valid() reads infos => infos[i].State()),
          nextOrderId)
    }

    constructor (client: nat, riskCfgs: seq<RiskCfg>, positions: seq<PositionInfo>)
      requires |riskCfgs| == |positions| == ME_MAX_TICKERS
      requires forall i, j :: 0 <= i < j < |positions| ==> positions[i] != positions[j]
      requires forall i :: 0 <= i < |positions| ==> positions[i].Valid() && positions[i].State() == Positions.FLAT
      ensures Valid() && State() == NewDesk() && sent == []
      ensures clientId == client && cfgs == riskCfgs && infos == positions && fresh(slots)
    {
      clientId, cfgs, infos, nextOrderId, sent := client, riskCfgs, positions, 1, [];
      slots := new OMOrder[NUM_SLOTS](_ => NO_ORDER);
    }

    method NewOrder(i: nat, ticker: nat, price: int, side: Side, qty: nat)
      requires Valid() && ticker < ME_MAX_TICKERS && i == ClientOrders.SlotOf(ticker, side)
      modifies this`nextOrderId, this`sent, slots
      ensures Valid() && State() == ClientOrders.NewOrder(clientId, old(State()), ticker, price, side, qty).desk
      ensures sent == old(sent) + ClientOrders.NewOrder(clientId, old(State()), ticker, price, side, qty).requests
    {
      sent := sent + [Request(NEW, OrderRef(clientId, nextOrderId), ticker, side, price, qty)];
      slots[i] := OMOrder(ticker, nextOrderId, side, price, qty, PENDING_NEW);
      nextOrderId := nextOrderId + 1;
    }

    method CancelOrder(i: nat)
      requires Valid() && i < NUM_SLOTS
      modifies this`sent, slots
      ensures Valid() && State() == ClientOrders.CancelOrder(clientId, old(State()), i).desk
      ensures sent == old(sent) + ClientOrders.CancelOrder(clientId, old(State()), i).requests
    {
      sent := sent + [CancelRequest(clientId, slots[i])];
      slots[i] := slots[i].(state := PENDING_CANCEL);
    }

    method CheckPreTradeRisk(ticker: nat, side: Side, qty: nat) returns (r: RiskCheckResult)
      requires Valid() && ticker < ME_MAX_TICKERS
      ensures r == ClientOrders.CheckPreTradeRisk(State().positions[ticker], cfgs[ticker], side, qty)
    {
      var info, cfg := infos[ticker], cfgs[ticker];
      if qty > cfg.maxOrderSize {
        return ORDER_TOO_LARGE;
      }
      if Abs32(GateSum(info.position, side, qty)) > Positions.ToInt32(cfg.maxPosition) {
        return POSITION_TOO_LARGE;
      }
      if info.totalPnl < cfg.maxLoss {
        return LOSS_TOO_LARGE;
      }
      return ALLOWED;
    }

    method MoveOrder(ticker: nat, price: int, side: Side, qty: nat)
      requires Valid() && ticker < ME_MAX_TICKERS
      modifies this`nextOrderId, this`sent, slots
      ensures Valid()
      ensures State() == ClientOrders.MoveOrder(clientId, cfgs[ticker], old(State()), ticker, price, side, qty).desk
      ensures sent == old(sent)
           + ClientOrders.MoveOrder(clientId, cfgs[ticker], old(State()), ticker, price, side, qty).requests
    {
      hide ClientOrders.CheckPreTradeRisk, ClientOrders.NewOrder, ClientOrders.CancelOrder;
      var i := ClientOrders.SlotOf(ticker, side);
      var order := slots[i];
      match order.state {
        case LIVE =>
          if order.price != price || order.qty != qty {
            CancelOrder(i);
          }
        case NEVER_USED => TryNewOrder(i, ticker, price, side, qty);
        case DEAD => TryNewOrder(i, ticker, price, side, qty);
        case PENDING_NEW =>
        case PENDING_CANCEL =>
      }
    }

    method TryNewOrder(i: nat, ticker: nat, price: int, side: Side, qty: nat)
      requires Valid() && ticker < ME_MAX_TICKERS && i == ClientOrders.SlotOf(ticker, side)
      modifies this`nextOrderId, this`sent, slots
      ensures Valid()
      ensures State() == ClientOrders.TryNewOrder(clientId, cfgs[ticker], old(State()), ticker, price, side, qty).desk
      ensures sent == old(sent)
           + ClientOrders.TryNewOrder(clientId, cfgs[ticker], old(State()), ticker, price, side, qty).requests
    {
      hide ClientOrders.CheckPreTradeRisk, ClientOrders.NewOrder;
      if price != PRICE_INVALID {
        var result := CheckPreTradeRisk(ticker, side, qty);
        if result == ALLOWED {
          NewOrder(i, ticker, price, side, qty);
        }
      }
    }

    method MoveOrders(ticker: nat, bid: int, ask: int, clip: nat)
      requires Valid() && ticker < ME_MAX_TICKERS
      modifies this`nextOrderId, this`sent, slots
      ensures Valid()
      ensures State() == ClientOrders.MoveOrders(clientId, cfgs[ticker], old(State()), ticker, bid, ask, clip).desk
      ensures sent == old(sent)
           + ClientOrders.MoveOrders(clientId, cfgs[ticker], old(State()), ticker, bid, ask, clip).requests
    {
      hide ClientOrders.MoveOrder;
      MoveOrder(ticker, bid, BUY, clip);
      // Repair: order_manager.cpp:118 passes the bid price.
      MoveOrder(ticker, ask, SELL, clip);
    }

    /** The order manager's part of a response. */
    method OnResponse(r: Response)
      requires Valid() && r.ticker < ME_MAX_TICKERS
      modifies slots
      ensures Valid()
      ensures var i := ClientOrders.SlotOf(r.ticker, r.side);
              State() == old(State()).(slots := old(State()).slots[i := UpdateSlot(old(State()).slots[i], r)])
    {
      var i := ClientOrders.SlotOf(r.ticker, r.side);
      var order := slots[i];
      match r.kind {
        case ACCEPTED => slots[i] := order.(state := LIVE);
        case CANCELED => slots[i] := order.(state := DEAD);
        case FILLED => slots[i] := order.(qty := r.leavesQty, state := if r.leavesQty == 0 then DEAD else order.state);
        case CANCEL_REJECTED =>
      }
      assert slots[..] == old(slots[..])[i := UpdateSlot(order, r)];
    }

    /** The trade engine's reaction to a new best bid and offer. */
    method OnOrderBookUpdate(ticker: nat, bid: int, ask: int)
      requires Valid() && ticker < ME_MAX_TICKERS
      modifies infos
      ensures Valid() && State() == OnQuote(old(State()), ticker, bid, ask)
    {
      hide Positions.UpdateBBO;
      infos[ticker].UpdateBBO(bid, ask);
      assert State().positions
          == old(State()).positions[ticker := Positions.UpdateBBO(old(State()).positions[ticker], bid, ask)];
    }

    /** The trade engine's reaction to a response: position first, then the slot. */
    method OnOrderUpdate(r: Response)
      requires Valid() && r.ticker < ME_MAX_TICKERS && (r.kind == FILLED ==> IsTradeSide(r.side))
      modifies slots, infos
      ensures Valid() && State() == ClientOrders.OnOrderUpdate(old(State()), r)
    {
      hide Positions.AddFill, UpdateSlot;
      if r.kind == FILLED {
        infos[r.ticker].AddFill(r);
        assert State().positions
            == old(State()).positions[r.ticker := Positions.AddFill(old(State()).positions[r.ticker], FillOf(r))];
      }
      OnResponse(r);
    }
  }
}
