/** Position and profit keeping of one instrument, with reals for the source's doubles. */
module Positions {
  import opened Common

  const INT32_RANGE: nat := 0x1_0000_0000

  /** Conversion to a 32-bit signed integer. */
  function ToInt32(x: int): (r: int)
    ensures -0x8000_0000 <= r < 0x8000_0000
    ensures -0x8000_0000 <= x < 0x8000_0000 ==> r == x
  {
    var m := x % INT32_RANGE;
    if m < 0x8000_0000 then m else m - INT32_RANGE
  }

  const INT64_RANGE: nat := 0x1_0000_0000_0000_0000

  predicate IsInt64(x: int) {
    -0x8000_0000_0000_0000 <= x < 0x8000_0000_0000_0000
  }

  /** Conversion to a 64-bit signed integer. */
  function ToInt64(x: int): (r: int)
    ensures IsInt64(r) && (r == x <==> IsInt64(x))
  {
    var m := x % INT64_RANGE;
    if m < 0x8000_0000_0000_0000 then m else m - INT64_RANGE
  }

  function Abs(x: int): nat {
    if x < 0 then -x else x
  }

  /** +1 for BUY and -1 for SELL. */
  function SideToValue(side: Side): int {
    match side
    case BUY => 1
    case SELL => -1
    case INVALID => 0
  }

  /** `openBuy` and `openSell` are the accumulators `m_open_vwap`: average entry price times open
      quantity. They start at zero; position_keeper.hpp:18 leaves them uninitialised. */
  datatype Position = Position(position: int, realPnl: real, unrealPnl: real, totalPnl: real,
                               openBuy: real, openSell: real, volume: nat)
  {
    function Open(side: Side): real {
      if side == BUY then openBuy else openSell
    }

    function WithOpen(side: Side, v: real): Position {
      if side == BUY then this.(openBuy := v) else this.(openSell := v)
    }
  }

  const FLAT := Position(0, 0.0, 0.0, 0.0, 0.0, 0.0, 0)

  datatype Fill = Fill(side: Side, price: int, qty: nat)

  function Times(a: real, n: int): real {
    a * n as real
  }

  function Per(a: real, n: nat): real
    requires n > 0
  {
    a / n as real
  }

  /** The fill adds to the position, or opens one. */
  predicate Opens(position: int, side: Side) {
    position * SideToValue(side) >= 0
  }

  lemma NotFlat(position: int, side: Side)
    ensures !Opens(position, side) ==> Abs(position) > 0
  {
  }

  predicate Flips(position: int, oldPosition: int) {
    position * oldPosition < 0
  }

  /** The profit a fill makes by closing `closed` of a position opened at `average`. */
  function Realised(side: Side, closed: int, average: real, price: int): real {
    closed as real * (average - price as real) * SideToValue(side) as real
  }

  /** The open position valued at `price`. */
  function Unrealised(p: Position, price: real): real {
    if p.position > 0 then (price - p.openBuy / p.position as real) * p.position as real
    else if p.position < 0 then (p.openSell / Abs(p.position) as real - price) * Abs(p.position) as real
    else 0.0
  }

  /** Position and realised profit after a fill that is against the position. */
  function Closed(p: Position, f: Fill): Position
    requires !Opens(p.position, f.side)
  {
    var average := Per(p.Open(Opposite(f.side)), Abs(p.position));
    var closed := if ToInt32(f.qty) < Abs(p.position) then ToInt32(f.qty) else Abs(p.position);
    Moved(p, f).(realPnl := p.realPnl + Realised(f.side, closed, average, f.price))
  }

  /** Position and volume after a fill. */
  function Moved(p: Position, f: Fill): Position {
    p.(position := ToInt32(p.position + SideToValue(f.side) * f.qty), volume := (p.volume + f.qty) % INT32_RANGE)
  }

  /** The accumulators and realised profit after a fill.
      Repair: position_keeper.hpp:49 and :57 multiply price and quantity in 64 bits, and :56 multiplies two
      positions in 32 bits; the products are exact here.
      Repair: position_keeper.hpp:51-60 leaves the opposite accumulator alone when part of the position is
      closed; here it is scaled down to what stays open. */
  function Booked(p: Position, f: Fill): Position {
    if Opens(p.position, f.side) then
      Moved(p, f).WithOpen(f.side, p.Open(f.side) + Times(f.price as real, f.qty))
    else
      var q, opp := Closed(p, f), Opposite(f.side);
      if Flips(q.position, p.position) then
        q.WithOpen(f.side, Times(f.price as real, Abs(q.position))).WithOpen(opp, 0.0)
      else q.WithOpen(opp, Times(Per(p.Open(opp), Abs(p.position)), Abs(q.position)))
  }

  /** One fill.
      Repair: position_keeper.hpp:75 recomputes the total only when the position is not flat. */
  function AddFill(p: Position, f: Fill): Position {
    var p' := Booked(p, f);
    var p'' := if p'.position == 0 then p'.(openBuy := 0.0, openSell := 0.0) else p';
    var unreal := Unrealised(p'', f.price as real);
    p''.(unrealPnl := unreal, totalPnl := unreal + p''.realPnl)
  }

  /** The test for a flip as written: the product of two 32-bit positions is a 32-bit number. Its overflow
      is undefined in C++, and wraps here. */
  predicate FlipsAsWritten(position: int, oldPosition: int) {
    ToInt32(position * oldPosition) < 0
  }

  function BookedAsWritten(p: Position, f: Fill): Position {
    if Opens(p.position, f.side) then
      Moved(p, f).WithOpen(f.side, p.Open(f.side) + ToInt64(f.price * f.qty) as real)
    else
      var q, opp := Closed(p, f), Opposite(f.side);
      if FlipsAsWritten(q.position, p.position) then
        q.WithOpen(f.side, ToInt64(f.price * Abs(q.position)) as real).WithOpen(opp, 0.0)
      else q
  }

  function AddFillAsWritten(p: Position, f: Fill): Position {
    var p' := BookedAsWritten(p, f);
    if p'.position == 0 then p'.(openBuy := 0.0, openSell := 0.0, unrealPnl := 0.0)
    else
      var unreal := Unrealised(p', f.price as real);
      p'.(unrealPnl := unreal, totalPnl := unreal + p'.realPnl)
  }

  /** A new best bid and offer revalues an open position at the mid price.
      Repair: position_keeper.hpp:90 adds the two prices in 64 bits; the sum is exact here. */
  function UpdateBBO(p: Position, bid: int, ask: int): Position {
    if p.position == 0 || bid == PRICE_INVALID || ask == PRICE_INVALID then p
    else
      var unreal := Unrealised(p, (bid + ask) as real * 0.5);
      p.(unrealPnl := unreal, totalPnl := unreal + p.realPnl)
  }

  function UpdateBBOAsWritten(p: Position, bid: int, ask: int): Position {
    if p.position == 0 || bid == PRICE_INVALID || ask == PRICE_INVALID then p
    else
      var unreal := Unrealised(p, ToInt64(bid + ask) as real * 0.5);
      p.(unrealPnl := unreal, totalPnl := unreal + p.realPnl)
  }

  // ----- cash -----

  /** Money in hand after a fill. */
  function Paid(cash: real, f: Fill): real {
    cash - (SideToValue(f.side) * f.qty) as real * f.price as real
  }

  function Cash(fs: seq<Fill>): real
    decreases |fs|
  {
    if fs == [] then 0.0 else Paid(Cash(fs[..|fs| - 1]), fs[|fs| - 1])
  }

  function AfterFills(fs: seq<Fill>): Position
    decreases |fs|
  {
    if fs == [] then FLAT else AddFill(AfterFills(fs[..|fs| - 1]), fs[|fs| - 1])
  }

  /** The fill trades something and neither it nor the new position leaves the 32-bit range. */
  predicate Fits(p: Position, f: Fill) {
    IsTradeSide(f.side) && 0 < f.qty < 0x8000_0000 && Abs(p.position + SideToValue(f.side) * f.qty) < 0x8000_0000
  }

  ghost predicate AllFit(fs: seq<Fill>)
    decreases |fs|
  {
    fs == [] || (AllFit(fs[..|fs| - 1]) && Fits(AfterFills(fs[..|fs| - 1]), fs[|fs| - 1]))
  }

  /** The books balance: realised profit is the cash plus what the open position cost. */
  ghost predicate Balanced(p: Position, cash: real) {
    if p.position > 0 then p.realPnl == cash + p.openBuy && p.openSell == 0.0
    else if p.position < 0 then p.realPnl == cash - p.openSell && p.openBuy == 0.0
    else p.realPnl == cash && p.openBuy == 0.0 && p.openSell == 0.0
  }

  lemma DivideBack(a: real, b: real)
    requires b != 0.0
    ensures a / b * b == a
  {
  }

  lemma Spread(a: real, b: real, c: real)
    ensures (a - b) * c == a * c - b * c
  {
  }

  /** Whatever the price, profit is cash plus the market value of the position. */
  lemma ProfitIsCashPlusValue(p: Position, cash: real, price: real)
    requires Balanced(p, cash)
    ensures p.realPnl + Unrealised(p, price) == cash + p.position as real * price
  {
    if p.position > 0 {
      var n := p.position as real;
      Spread(price, p.openBuy / n, n);
      DivideBack(p.openBuy, n);
    } else if p.position < 0 {
      var n := Abs(p.position) as real;
      Spread(p.openSell / n, price, n);
      DivideBack(p.openSell, n);
      assert p.position as real == -n;
    }
  }

  /** What closing realises, multiplied out. */
  lemma RealisedIs(side: Side, closed: nat, average: real, price: int)
    requires IsTradeSide(side)
    ensures Realised(side, closed, average, price)
         == if side == BUY then average * closed as real - price as real * closed as real
            else price as real * closed as real - average * closed as real
  {
    Spread(average, price as real, closed as real);
  }

  /** What a fill changes apart from the revaluation. */
  ghost predicate Moves(p: Position, f: Fill, p': Position, realPnl: real, side: Side, open: real) {
    && p'.position == p.position + SideToValue(f.side) * f.qty && p'.realPnl == realPnl
    && p'.Open(side) == open && p'.Open(Opposite(side)) == 0.0
  }

  lemma OpeningMoves(p: Position, f: Fill)
    requires Fits(p, f) && p.position * SideToValue(f.side) >= 0 && p.Open(Opposite(f.side)) == 0.0
    ensures Moves(p, f, AddFill(p, f), p.realPnl, f.side, p.Open(f.side) + f.price as real * f.qty as real)
  {
    hide Unrealised;
  }

  lemma PartialMoves(p: Position, f: Fill)
    requires Fits(p, f) && p.position * SideToValue(f.side) < 0 && f.qty <= Abs(p.position) && p.Open(f.side) == 0.0
    ensures var average := p.Open(Opposite(f.side)) / Abs(p.position) as real;
            Moves(p, f, AddFill(p, f), p.realPnl + Realised(f.side, f.qty, average, f.price), Opposite(f.side),
                  if f.qty == Abs(p.position) then 0.0 else average * (Abs(p.position) - f.qty) as real)
  {
    hide Unrealised, Realised;
  }

  lemma FlipMoves(p: Position, f: Fill)
    requires Fits(p, f) && p.position * SideToValue(f.side) < 0 && f.qty > Abs(p.position)
    ensures var average := p.Open(Opposite(f.side)) / Abs(p.position) as real;
            Moves(p, f, AddFill(p, f), p.realPnl + Realised(f.side, Abs(p.position), average, f.price), f.side,
                  f.price as real * (f.qty - Abs(p.position)) as real)
  {
    hide Unrealised, Realised;
  }

  lemma PaidIs(cash: real, f: Fill)
    requires IsTradeSide(f.side)
    ensures var value := f.price as real * f.qty as real;
            Paid(cash, f) == if f.side == BUY then cash - value else cash + value
  {
    assert (SideToValue(f.side) * f.qty) as real == if f.side == BUY then f.qty as real else -(f.qty as real);
  }

  lemma OpeningBalances(p: Position, cash: real, f: Fill)
    requires Balanced(p, cash) && Fits(p, f) && p.position * SideToValue(f.side) >= 0
    ensures Balanced(AddFill(p, f), Paid(cash, f))
  {
    hide AddFill, Paid;
    OpeningMoves(p, f);
    PaidIs(cash, f);
  }

  /** Average price times what stays open. */
  lemma StaysOpen(open: real, n: nat, q: nat)
    requires 0 < n && q <= n
    ensures open / n as real * (n - q) as real == open - open / n as real * q as real
  {
    DivideBack(open, n as real);
    Spread(n as real, q as real, open / n as real);
  }

  /** Part of the position is closed; the accumulator keeps the average price. */
  lemma PartialCloseBalances(p: Position, cash: real, f: Fill)
    requires Balanced(p, cash) && Fits(p, f) && p.position * SideToValue(f.side) < 0 && f.qty <= Abs(p.position)
    ensures Balanced(AddFill(p, f), Paid(cash, f))
  {
    hide AddFill, Paid, Realised;
    var open, n := p.Open(Opposite(f.side)), Abs(p.position);
    PartialMoves(p, f);
    PaidIs(cash, f);
    RealisedIs(f.side, f.qty, open / n as real, f.price);
    StaysOpen(open, n, f.qty);
  }

  /** The whole position is closed and the rest of the fill opens the other way. */
  lemma FlipBalances(p: Position, cash: real, f: Fill)
    requires Balanced(p, cash) && Fits(p, f) && p.position * SideToValue(f.side) < 0 && f.qty > Abs(p.position)
    ensures Balanced(AddFill(p, f), Paid(cash, f))
  {
    hide AddFill, Paid, Realised;
    var open, n := p.Open(Opposite(f.side)), Abs(p.position);
    FlipMoves(p, f);
    PaidIs(cash, f);
    RealisedIs(f.side, n, open / n as real, f.price);
    DivideBack(open, n as real);
    Spread(f.qty as real, n as real, f.price as real);
  }

  lemma FillBalances(p: Position, cash: real, f: Fill)
    requires Balanced(p, cash) && Fits(p, f)
    ensures Balanced(AddFill(p, f), Paid(cash, f))
  {
    if p.position * SideToValue(f.side) >= 0 {
      OpeningBalances(p, cash, f);
    } else if f.qty <= Abs(p.position) {
      PartialCloseBalances(p, cash, f);
    } else {
      FlipBalances(p, cash, f);
    }
  }

  /** Average entry price of what is open on a side. */
  function Average(p: Position, side: Side): real {
    if p.position == 0 then 0.0 else p.Open(side) / Abs(p.position) as real
  }

  lemma AverageIs(open: real, average: real, n: nat)
    requires n > 0 && open == average * n as real
    ensures open / n as real == average
  {
  }

  lemma RealisedGain(side: Side, closed: nat, average: real, price: int)
    requires IsTradeSide(side)
    ensures Realised(side, closed, average, price)
         == closed as real * (if side == SELL then price as real - average else average - price as real)
  {
  }

  /** The fill is in the direction of the position, or opens one. */
  predicate Adds(p: Position, f: Fill) {
    p.position == 0 || (p.position > 0 <==> f.side == BUY)
  }

  /** Profit of one unit closed by the fill. */
  function Gain(p: Position, f: Fill): real {
    if f.side == SELL then f.price as real - Average(p, BUY) else Average(p, SELL) - f.price as real
  }

  /** Adding to a position realises nothing and costs what it costs; closing part of it realises that part
      against the average entry price, and leaves the average of the rest alone; a fill that goes beyond flat
      realises everything, and opens the rest at its own price. */
  ghost predicate FillEffect(p: Position, f: Fill, p': Position) {
    var n, opp := Abs(p.position), Opposite(f.side);
    && p'.position == (if f.side == BUY then p.position + f.qty else p.position - f.qty)
    && if Adds(p, f) then
         p'.realPnl == p.realPnl && p'.Open(f.side) == p.Open(f.side) + f.price as real * f.qty as real
       else
         && p'.realPnl == p.realPnl + (if f.qty < n then f.qty else n) as real * Gain(p, f)
         && (f.qty < n ==> Average(p', opp) == Average(p, opp))
         && (f.qty > n ==> Average(p', f.side) == f.price as real)
  }

  lemma PartialDoes(p: Position, f: Fill)
    requires Fits(p, f) && p.position * SideToValue(f.side) < 0 && f.qty <= Abs(p.position) && p.Open(f.side) == 0.0
    ensures FillEffect(p, f, AddFill(p, f))
  {
    hide AddFill, Realised, Unrealised;
    var n, opp := Abs(p.position), Opposite(f.side);
    PartialMoves(p, f);
    RealisedGain(f.side, f.qty, Average(p, opp), f.price);
    if f.qty < n {
      AverageIs(AddFill(p, f).Open(opp), Average(p, opp), n - f.qty);
    }
  }

  lemma FlipDoes(p: Position, f: Fill)
    requires Fits(p, f) && p.position * SideToValue(f.side) < 0 && f.qty > Abs(p.position)
    ensures FillEffect(p, f, AddFill(p, f))
  {
    hide AddFill, Realised, Unrealised;
    var n := Abs(p.position);
    FlipMoves(p, f);
    RealisedGain(f.side, n, Average(p, Opposite(f.side)), f.price);
    AverageIs(AddFill(p, f).Open(f.side), f.price as real, f.qty - n);
  }

  /** Profit is realised against the average entry price, and only on what a fill closes. */
  lemma FillDoes(p: Position, cash: real, f: Fill)
    requires Balanced(p, cash) && Fits(p, f)
    ensures FillEffect(p, f, AddFill(p, f))
  {
    hide AddFill, Realised, Unrealised, Average, Gain;
    if p.position * SideToValue(f.side) >= 0 {
      OpeningMoves(p, f);
    } else if f.qty <= Abs(p.position) {
      PartialDoes(p, f);
    } else {
      FlipDoes(p, f);
    }
  }

  lemma Revalued(p: Position, f: Fill)
    ensures var p' := AddFill(p, f);
            p'.unrealPnl == Unrealised(p', f.price as real) && p'.totalPnl == p'.realPnl + p'.unrealPnl
  {
    hide Booked;
  }

  /** The profit identity. After any fills, with partial closes and flips through zero among them,
      realised plus unrealised profit at the last fill price is the net cash flow plus the position
      at that price, and the total is up to date. */
  lemma {:induction false} ProfitIdentity(fs: seq<Fill>)
    requires AllFit(fs)
    ensures Balanced(AfterFills(fs), Cash(fs))
    ensures fs != [] ==>
              var p, price := AfterFills(fs), fs[|fs| - 1].price as real;
              && p.realPnl + p.unrealPnl == Cash(fs) + p.position as real * price
              && p.totalPnl == p.realPnl + p.unrealPnl
    decreases |fs|
  {
    hide AddFill, Paid, Unrealised;
    if fs != [] {
      hide Balanced;
      var before, f := fs[..|fs| - 1], fs[|fs| - 1];
      ProfitIdentity(before);
      FillBalances(AfterFills(before), Cash(before), f);
      ProfitIsCashPlusValue(AfterFills(fs), Cash(fs), f.price as real);
      Revalued(AfterFills(before), f);
    }
  }

  /** A later quote keeps the books balanced and revalues at the mid price. */
  lemma QuoteBalances(p: Position, cash: real, bid: int, ask: int)
    requires Balanced(p, cash) && p.position != 0 && bid != PRICE_INVALID && ask != PRICE_INVALID
    ensures var p' := UpdateBBO(p, bid, ask);
            && Balanced(p', cash)
            && p'.totalPnl == cash + p.position as real * ((bid + ask) as real * 0.5)
  {
    ProfitIsCashPlusValue(p, cash, (bid + ask) as real * 0.5);
    var p' := UpdateBBO(p, bid, ask);
    assert Unrealised(p', (bid + ask) as real * 0.5) == Unrealised(p, (bid + ask) as real * 0.5);
  }

  // ----- the form as written -----

  /** A fill as written moves the position and realises profit as it should. */
  lemma MovesAsWritten(p: Position, f: Fill)
    requires Fits(p, f)
    ensures var q := AddFillAsWritten(p, f);
            && q.position == p.position + SideToValue(f.side) * f.qty
            && q.realPnl == (if Opens(p.position, f.side) then p.realPnl else Closed(p, f).realPnl)
  {
    hide Unrealised, Realised, ToInt64, FlipsAsWritten;
  }

  lemma RevaluedAsWritten(p: Position, f: Fill)
    ensures AddFillAsWritten(p, f).unrealPnl == Unrealised(AddFillAsWritten(p, f), f.price as real)
  {
    hide BookedAsWritten;
  }

  /** The side of an open position. */
  function HeldSide(position: int): Side {
    if position > 0 then BUY else SELL
  }

  /** What it leaves in the accumulator of the new position. */
  lemma OpensAsWritten(p: Position, f: Fill)
    requires Fits(p, f) && AddFillAsWritten(p, f).position != 0
    ensures var q := AddFillAsWritten(p, f);
            q.Open(HeldSide(q.position))
            == if Opens(p.position, f.side) then p.Open(f.side) + ToInt64(f.price * f.qty) as real
               else if !FlipsAsWritten(q.position, p.position) then p.Open(HeldSide(q.position))
               else if HeldSide(q.position) == f.side then ToInt64(f.price * Abs(q.position)) as real
               else 0.0
  {
    hide Unrealised, Realised, ToInt64, FlipsAsWritten;
  }

  /** The open profit of a position, multiplied out. */
  lemma UnrealisedIs(p: Position, price: real)
    requires p.position != 0
    ensures Unrealised(p, price)
         == if p.position > 0 then price * p.position as real - p.openBuy
            else p.openSell - price * Abs(p.position) as real
  {
    var n := Abs(p.position) as real;
    if p.position > 0 {
      DivideBack(p.openBuy, n);
      Spread(price, p.openBuy / n, n);
    } else {
      DivideBack(p.openSell, n);
      Spread(p.openSell / n, price, n);
    }
  }

  /** How far profit is from cash plus market value. */
  function Gap(p: Position, cash: real): real {
    if p.position > 0 then p.realPnl - cash - p.openBuy
    else if p.position < 0 then p.realPnl - cash + p.openSell
    else p.realPnl - cash
  }

  lemma GapIs(p: Position, cash: real, price: int)
    ensures p.realPnl + Unrealised(p, price as real) == cash + p.position as real * price as real + Gap(p, cash)
  {
    if p.position != 0 {
      UnrealisedIs(p, price as real);
      Swap(p.position, price);
    }
  }

  lemma Swap(position: int, price: int)
    ensures position as real * price as real
         == if position > 0 then price as real * position as real else -(price as real * Abs(position) as real)
  {
    assert position <= 0 ==> position as real == -(Abs(position) as real);
  }

  /** What a fill as written is off by. */
  function Off(p: Position, f: Fill): real
    requires Fits(p, f)
  {
    var n, sign := Abs(p.position), SideToValue(f.side) as real;
    if Opens(p.position, f.side) then sign * (f.price * f.qty - ToInt64(f.price * f.qty)) as real
    else
      var average, flips := Per(p.Open(Opposite(f.side)), n),
          FlipsAsWritten(p.position + SideToValue(f.side) * f.qty, p.position);
      if f.qty < n then (if flips then -sign * average * (n - f.qty) as real else sign * average * f.qty as real)
      else if f.qty == n then 0.0
      else if flips then sign * (f.price * (f.qty - n) - ToInt64(f.price * (f.qty - n))) as real
      else sign * (f.price * (f.qty - n)) as real
  }

  lemma OpeningOff(p: Position, cash: real, f: Fill)
    requires Balanced(p, cash) && Fits(p, f) && Opens(p.position, f.side)
    ensures Gap(AddFillAsWritten(p, f), Paid(cash, f)) == Off(p, f)
  {
    hide AddFillAsWritten, Paid, ToInt64, Unrealised;
    MovesAsWritten(p, f);
    OpensAsWritten(p, f);
    PaidIs(cash, f);
    assert (f.price * f.qty) as real == f.price as real * f.qty as real;
  }

  /** The realised profit after a fill against the position, multiplied out. */
  lemma ClosedIs(p: Position, f: Fill)
    requires Fits(p, f) && !Opens(p.position, f.side)
    ensures var n, open := Abs(p.position), p.Open(Opposite(f.side));
            var k := if f.qty < n then f.qty else n;
            var cost, value := Per(open, n) * k as real, f.price as real * k as real;
            && Closed(p, f).realPnl == p.realPnl + (if f.side == BUY then cost - value else value - cost)
            && (k == n ==> cost == open)
            && cost == open - Per(open, n) * (n - k) as real
  {
    hide Realised;
    var n, open := Abs(p.position), p.Open(Opposite(f.side));
    var k := if f.qty < n then f.qty else n;
    RealisedIs(f.side, k, Per(open, n), f.price);
    StaysOpen(open, n, k);
    DivideBack(open, n as real);
  }

  /** Closing a part. */
  lemma PartialOff(p: Position, cash: real, f: Fill)
    requires Balanced(p, cash) && Fits(p, f) && !Opens(p.position, f.side) && f.qty < Abs(p.position)
    ensures Gap(AddFillAsWritten(p, f), Paid(cash, f)) == Off(p, f)
  {
    hide AddFillAsWritten, Paid, ToInt64, Unrealised, Closed, Per, FlipsAsWritten;
    MovesAsWritten(p, f);
    OpensAsWritten(p, f);
    ClosedIs(p, f);
    PaidIs(cash, f);
  }

  /** Closing the whole position, with nothing left over. */
  lemma FlatOff(p: Position, cash: real, f: Fill)
    requires Balanced(p, cash) && Fits(p, f) && !Opens(p.position, f.side) && f.qty == Abs(p.position)
    ensures Gap(AddFillAsWritten(p, f), Paid(cash, f)) == Off(p, f)
  {
    hide AddFillAsWritten, Paid, ToInt64, Unrealised, Closed, Per, FlipsAsWritten;
    MovesAsWritten(p, f);
    ClosedIs(p, f);
    PaidIs(cash, f);
  }

  /** Going through zero. */
  lemma FlipOff(p: Position, cash: real, f: Fill)
    requires Balanced(p, cash) && Fits(p, f) && !Opens(p.position, f.side) && f.qty > Abs(p.position)
    ensures Gap(AddFillAsWritten(p, f), Paid(cash, f)) == Off(p, f)
  {
    hide AddFillAsWritten, Paid, ToInt64, Unrealised, Closed, Per, FlipsAsWritten;
    MovesAsWritten(p, f);
    OpensAsWritten(p, f);
    ClosedIs(p, f);
    PaidIs(cash, f);
    Split(f.price, f.qty, Abs(p.position));
    assert Abs(AddFillAsWritten(p, f).position) == f.qty - Abs(p.position);
  }

  lemma Split(price: int, q: nat, n: nat)
    requires n <= q
    ensures (price * (q - n)) as real == price as real * q as real - price as real * n as real
  {
    Spread(q as real, n as real, price as real);
  }

  /** A fill as written is off by exactly `Off`. */
  lemma AsWrittenIsOff(p: Position, cash: real, f: Fill)
    requires Balanced(p, cash) && Fits(p, f)
    ensures var q := AddFillAsWritten(p, f);
            q.realPnl + q.unrealPnl == Paid(cash, f) + q.position as real * f.price as real + Off(p, f)
  {
    hide AddFillAsWritten, Paid, Unrealised, Balanced, Off, Gap;
    RevaluedAsWritten(p, f);
    GapIs(AddFillAsWritten(p, f), Paid(cash, f), f.price);
    if Opens(p.position, f.side) {
      OpeningOff(p, cash, f);
    } else if f.qty < Abs(p.position) {
      PartialOff(p, cash, f);
    } else if f.qty == Abs(p.position) {
      FlatOff(p, cash, f);
    } else {
      FlipOff(p, cash, f);
    }
  }

  /** The fills that the code as written books rightly. One that adds to the position must have a value that
      fits 64 bits. One that closes just a part must find a position with an average price of zero. One that
      goes through zero must be priced at zero if the product of the two positions does not come out
      negative in 32 bits, and otherwise have the value of its rest fit 64 bits. */
  predicate Survives(p: Position, f: Fill) {
    var n := Abs(p.position);
    if Opens(p.position, f.side) then IsInt64(f.price * f.qty)
    else if f.qty < n then p.Open(Opposite(f.side)) == 0.0
    else if f.qty == n then true
    else if ToInt32((p.position + SideToValue(f.side) * f.qty) * p.position) >= 0 then f.price == 0
    else IsInt64(f.price * (f.qty - n))
  }

  lemma CostIsZero(open: real, n: nat, q: nat)
    requires 0 < q < n
    ensures open / n as real * q as real == 0.0 <==> open == 0.0
  {
    DivideBack(open, n as real);
  }

  lemma OffIsZero(p: Position, f: Fill)
    requires Fits(p, f)
    ensures Off(p, f) == 0.0 <==> Survives(p, f)
  {
    hide ToInt32, ToInt64, IsInt64;
    var n, open := Abs(p.position), p.Open(Opposite(f.side));
    if !Opens(p.position, f.side) && f.qty < n {
      CostIsZero(open, n, f.qty);
      CostIsZero(open, n, n - f.qty);
    }
  }

  /** As written, the profit identity survives a fill exactly in the cases of `Survives`. */
  lemma ProfitAsWritten(p: Position, cash: real, f: Fill)
    requires Balanced(p, cash) && Fits(p, f)
    ensures var q := AddFillAsWritten(p, f);
            q.realPnl + q.unrealPnl == Paid(cash, f) + q.position as real * f.price as real <==> Survives(p, f)
  {
    hide AddFillAsWritten, Paid, Balanced, Off, Survives;
    AsWrittenIsOff(p, cash, f);
    OffIsZero(p, f);
  }

  /** A flip that goes unnoticed: from flat, buy 60000 at 1 and sell 120000 at 1. The product of the
      positions, -3600000000, reads as 694967296, and profit is off by 60000. */
  lemma FlipGoesUnnoticed()
    ensures var q := AddFillAsWritten(AddFillAsWritten(FLAT, Fill(BUY, 1, 60000)), Fill(SELL, 1, 120000));
            && q.position == -60000 && ToInt32(q.position * 60000) == 694967296
            && q.realPnl + q.unrealPnl
                == Cash([Fill(BUY, 1, 60000), Fill(SELL, 1, 120000)]) + q.position as real - 60000.0
  {
    hide AddFillAsWritten;
    var f, g := Fill(BUY, 1, 60000), Fill(SELL, 1, 120000);
    var p := AddFillAsWritten(FLAT, f);
    FirstBuy(f);
    AsWrittenIsOff(p, -60000.0, g);
    MovesAsWritten(p, g);
    assert [f, g][..1] == [f] && [f][..0] == [];
    assert Cash([f]) == -60000.0;
  }

  lemma FirstBuy(f: Fill)
    requires f == Fill(BUY, 1, 60000)
    ensures var p := AddFillAsWritten(FLAT, f); p.position == 60000 && Balanced(p, -60000.0)
  {
    hide Unrealised;
  }

  /** As written, a quote revalues rightly exactly when it is ignored anyway or the sum of the two prices
      fits 64 bits. */
  lemma QuoteAsWritten(p: Position, bid: int, ask: int)
    ensures UpdateBBOAsWritten(p, bid, ask) == UpdateBBO(p, bid, ask) <==>
            p.position == 0 || bid == PRICE_INVALID || ask == PRICE_INVALID || IsInt64(bid + ask)
  {
    hide Unrealised, ToInt64;
    if p.position != 0 {
      PriceMatters(p, ToInt64(bid + ask) as real * 0.5, (bid + ask) as real * 0.5);
    }
  }

  /** An open position has different profits at different prices. */
  lemma PriceMatters(p: Position, a: real, b: real)
    requires p.position != 0
    ensures Unrealised(p, a) == Unrealised(p, b) <==> a == b
  {
    hide Unrealised;
    UnrealisedIs(p, a);
    UnrealisedIs(p, b);
    if p.position > 0 {
      LinesMeet(p.position as real, a, b, p.openBuy);
    } else {
      LinesMeet(Abs(p.position) as real, a, b, p.openSell);
    }
  }

  lemma LinesMeet(n: real, a: real, b: real, c: real)
    requires n != 0.0
    ensures a * n - c == b * n - c <==> a == b
    ensures c - a * n == c - b * n <==> a == b
  {
    assert a * n == b * n <==> a == b by {
      if a * n == b * n {
        assert (a - b) * n == 0.0;
      }
    }
  }

  /** The fill takes an open position to flat. */
  predicate Flattens(p: Position, f: Fill) {
    Fits(p, f) && p.position != 0 && p.position + SideToValue(f.side) * f.qty == 0
  }

  /** As written, a fill that leaves the position flat leaves the total as it was. It then is right
      exactly when the position was last valued at that fill's own price: `mark` is the price of the
      last fill (`ProfitIdentity`) or the mid price of the last quote (`QuoteBalances`). */
  lemma TotalAsWritten(p: Position, cash: real, f: Fill, mark: real)
    requires Balanced(p, cash) && Flattens(p, f)
    requires p.totalPnl == cash + p.position as real * mark
    ensures AddFillAsWritten(p, f).totalPnl == AddFill(p, f).totalPnl <==> mark == f.price as real
  {
    hide Balanced, Unrealised, Realised, Paid;
    FillBalances(p, cash, f);
    FlatTotals(p, f);
    FlatIsCash(AddFill(p, f), Paid(cash, f));
    ClosingPays(p, cash, f);
    CancelFactor(p.position as real, mark, f.price as real);
  }

  /** After any fills: the total is right exactly when the closing fill repeats the price of the one before. */
  lemma TotalAfterFills(fs: seq<Fill>, f: Fill)
    requires fs != [] && AllFit(fs) && Flattens(AfterFills(fs), f)
    ensures var p := AfterFills(fs);
            AddFillAsWritten(p, f).totalPnl == AddFill(p, f).totalPnl <==> fs[|fs| - 1].price == f.price
  {
    hide AddFill, AddFillAsWritten, Cash, AllFit, Balanced;
    ProfitIdentity(fs);
    TotalAsWritten(AfterFills(fs), Cash(fs), f, fs[|fs| - 1].price as real);
  }

  /** With a quote in between: exactly when the closing fill is at the mid price. */
  lemma TotalAfterQuote(fs: seq<Fill>, bid: int, ask: int, f: Fill)
    requires fs != [] && AllFit(fs) && bid != PRICE_INVALID && ask != PRICE_INVALID && Flattens(AfterFills(fs), f)
    ensures var p := UpdateBBO(AfterFills(fs), bid, ask);
            AddFillAsWritten(p, f).totalPnl == AddFill(p, f).totalPnl <==> bid + ask == 2 * f.price
  {
    hide AddFill, AddFillAsWritten, Cash, AllFit, Balanced, Unrealised;
    ProfitIdentity(fs);
    QuoteBalances(AfterFills(fs), Cash(fs), bid, ask);
    TotalAsWritten(UpdateBBO(AfterFills(fs), bid, ask), Cash(fs), f, (bid + ask) as real * 0.5);
    assert (bid + ask) as real * 0.5 == f.price as real <==> bid + ask == 2 * f.price;
  }

  lemma FlatTotals(p: Position, f: Fill)
    requires Fits(p, f) && p.position + SideToValue(f.side) * f.qty == 0
    ensures AddFillAsWritten(p, f).totalPnl == p.totalPnl
    ensures AddFill(p, f).position == 0 && AddFill(p, f).totalPnl == AddFill(p, f).realPnl
  {
    hide Realised;
  }

  lemma FlatIsCash(p: Position, cash: real)
    requires Balanced(p, cash) && p.position == 0
    ensures p.realPnl == cash
  {
  }

  /** Closing the position brings in its value at the fill's price. */
  lemma ClosingPays(p: Position, cash: real, f: Fill)
    requires p.position + SideToValue(f.side) * f.qty == 0
    ensures Paid(cash, f) == cash + p.position as real * f.price as real
  {
    assert (SideToValue(f.side) * f.qty) as real == -(p.position as real);
  }

  lemma CancelFactor(n: real, a: real, b: real)
    requires n != 0.0
    ensures n * a == n * b <==> a == b
  {
  }
}
