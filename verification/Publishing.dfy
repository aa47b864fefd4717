/** The exchange's market-data side as it runs: the publisher numbers each update and hands the
    same stream to the wire and to the synthesizer; the synthesizer folds it and publishes
    snapshots. */
module Publishing {
  import opened Common
  import opened Replica
  import opened UpdateStream
  import opened Snapshot

  /** An update with its place in the stream, as it travels. */
  datatype Numbered = Numbered(seqNum: nat, update: Update)

  function NumberFrom(first: nat, us: seq<Update>): (r: seq<Numbered>)
    ensures |r| == |us|
    ensures forall i :: 0 <= i < |us| ==> r[i] == Numbered(first + i, us[i])
  {
    seq(|us|, i requires 0 <= i < |us| => Numbered(first + i, us[i]))
  }

  class MarketDataPublisher {
    var nextIncSeqNum: nat
    var wire: seq<Numbered>
    var toSynthesizer: seq<Numbered>

    constructor ()
      ensures Published([])
    {
      nextIncSeqNum, wire, toSynthesizer := 1, [], [];
    }

    /** Both outlets carry exactly the log, numbered from 1. */
    ghost predicate Published(log: seq<Update>)
      reads this
    {
      wire == NumberFrom(1, log) && toSynthesizer == wire && nextIncSeqNum == |log| + 1
    }

    /** One pass over the updates waiting in the queue. */
    method Drain(queue: seq<Update>, ghost log: seq<Update>)
      requires Published(log)
      modifies this
      ensures Published(log + queue)
    {
      // Repair: market_data_publisher.cpp:55 sends the bytes of the pointer instead of the update,
      // and lines 56-60 read the queue slot after giving it back.
      for i := 0 to |queue|
        invariant Published(log + queue[..i])
      {
        wire := wire + [Numbered(nextIncSeqNum, queue[i])];
        toSynthesizer := toSynthesizer + [Numbered(nextIncSeqNum, queue[i])];
        nextIncSeqNum := nextIncSeqNum + 1;
        assert log + queue[..i + 1] == log + queue[..i] + [queue[i]];
      }
      assert queue[..|queue|] == queue;
    }
  }

  /** What `addToSnapshot` demands of an update before it takes it; the process exits otherwise. */
  predicate Acceptable(ms: seq<Ledger>, last: nat, n: Numbered) {
    var u := n.update;
    && u.ticker < |ms|
    && (u.kind in {ADD, MODIFY, REMOVE} ==> u.oid < ME_MAX_ORDER_IDS)
    && Recordable(ms[u.ticker], u)
    && n.seqNum == last + 1
  }

  class SnapshotSynthesizer {
    var tickerOrders: seq<Ledger>
    var lastIncSeqNum: nat

    constructor ()
      ensures Folded([])
    {
      tickerOrders, lastIncSeqNum := seq(ME_MAX_TICKERS, _ => map[]), 0;
    }

    /** The synthesizer has taken in exactly `us`. */
    ghost predicate Folded(us: seq<Update>)
      reads this
    {
      tickerOrders == Ledgers(us) && lastIncSeqNum == |us|
    }

    method AddToSnapshot(n: Numbered) returns (ok: bool)
      modifies this
      ensures ok == old(Acceptable(tickerOrders, lastIncSeqNum, n))
      ensures ok ==> lastIncSeqNum == n.seqNum &&
                     var t := n.update.ticker;
                     tickerOrders == old(tickerOrders)[t := Record(old(tickerOrders)[t], n.update)]
      ensures !ok ==> unchanged(this)
    {
      var u := n.update;
      if u.ticker >= |tickerOrders| || n.seqNum != lastIncSeqNum + 1 {
        return false;
      }
      var orders := tickerOrders[u.ticker];
      match u.kind {
        case ADD =>
          if u.oid >= ME_MAX_ORDER_IDS || u.oid in orders { return false; }
          orders := orders[u.oid := u];
        case MODIFY =>
          if u.oid >= ME_MAX_ORDER_IDS || u.oid !in orders { return false; }
          var order := orders[u.oid];
          if order.oid != u.oid || order.side != u.side { return false; }
          orders := orders[u.oid := order.(qty := u.qty, price := u.price)];
        case REMOVE =>
          if u.oid >= ME_MAX_ORDER_IDS || u.oid !in orders { return false; }
          var order := orders[u.oid];
          if order.oid != u.oid || order.side != u.side { return false; }
          orders := orders - {u.oid};
        case _ =>
      }
      tickerOrders := tickerOrders[u.ticker := orders];
      lastIncSeqNum := n.seqNum;
      return true;
    }

    /** One pass over the numbered updates waiting in the queue. On the exchange's own stream it goes
        through to the end, and what has been folded in is the whole stream so far. */
    method Drain(queue: seq<Numbered>, ghost us: seq<Update>, ghost more: seq<Update>) returns (ok: bool)
      requires Folded(us) && queue == NumberFrom(|us| + 1, more) && LegalLog(us + more)
      modifies this
      ensures ok && Folded(us + more)
    {
      hide LegalLog, Acceptable, Record;
      assert us + more[..0] == us;
      for i := 0 to |queue|
        invariant Folded(us + more[..i])
      {
        ghost var done := us + more[..i];
        assert (us + more)[..|done|] == done && us + more[..i + 1] == done + [more[i]];
        NextIsAcceptable(us + more, |done|);
        FoldOne(us + more, |done|);
        ok := AddToSnapshot(queue[i]);
        if !ok {
          return;
        }
      }
      assert more[..|more|] == more;
      ok := true;
    }

    /** Writes out, in this order, the start marker, for each instrument a CLEAR and its orders in
        ascending id, and the end marker, numbered 0, 1, 2, ... */
    method PublishSnapshot() returns (sent: seq<Numbered>)
      ensures sent == NumberFrom(0, SnapshotOf(tickerOrders, lastIncSeqNum))
    {
      ghost var ms, start := tickerOrders, [Marker(SNAPSHOT_START, lastIncSeqNum)];
      sent := [Numbered(0, Marker(SNAPSHOT_START, lastIncSeqNum))];
      var size := 1;
      for t := 0 to |tickerOrders|
        invariant size == |sent| && sent == NumberFrom(0, start + Body(ms, t))
      {
        ghost var done := start + Body(ms, t) + [ClearUpdate(t)];
        sent := sent + [Numbered(size, ClearUpdate(t))];
        size := size + 1;
        for oid := 0 to ME_MAX_ORDER_IDS
          invariant size == |sent| && sent == NumberFrom(0, done + Listing(ms[t], oid))
        {
          if oid in tickerOrders[t] {
            sent := sent + [Numbered(size, tickerOrders[t][oid])];
            size := size + 1;
          }
        }
        assert start + Body(ms, t + 1) == done + Listing(ms[t], ME_MAX_ORDER_IDS);
      }
      sent := sent + [Numbered(size, Marker(SNAPSHOT_END, lastIncSeqNum))];
    }
  }

  lemma FoldOne(us: seq<Update>, n: nat)
    requires LegalLog(us) && n < |us|
    ensures us[n].ticker < ME_MAX_TICKERS
    ensures Ledgers(us[..n] + [us[n]])
        == Ledgers(us[..n])[us[n].ticker := Record(Ledgers(us[..n])[us[n].ticker], us[n])]
  {
    assert (us[..n] + [us[n]])[..n] == us[..n];
  }

  /** On the exchange's own stream the synthesizer never exits: whatever prefix it has folded in,
      it accepts the next numbered update. */
  lemma NextIsAcceptable(us: seq<Update>, n: nat)
    requires LegalLog(us) && n < |us|
    ensures Acceptable(Ledgers(us[..n]), n, NumberFrom(1, us)[n])
  {
    var t, v := us[n].ticker, Replay(us[n].ticker, us[..n]);
    LegalPrefix(t, EMPTY_VIEW, us, n + 1);
    assert us[..n + 1][..n] == us[..n];
    SynthesizeMirrors(t, us[..n]);
    LegalReplayIsGood(t, us[..n]);
    RecordMirrors(t, Synthesize(t, us[..n]), v, us[n]);
    assert forall i :: 0 <= i < n ==> us[..n][i] == us[i];
    SynthesizeSmall(t, us[..n]);
  }

  // ----- what the checks amount to -----

  /** Order `oid` of instrument `t` was added at position `i` and has not been removed since. */
  ghost predicate AddedAt(us: seq<Update>, t: nat, oid: nat, i: nat) {
    && i < |us| && us[i].kind == ADD && us[i].ticker == t && us[i].oid == oid
    && forall j :: i < j < |us| ==> !(us[j].kind == REMOVE && us[j].ticker == t && us[j].oid == oid)
  }

  /** An order of this id is there. */
  ghost predicate IsThere(us: seq<Update>, t: nat, oid: nat) {
    exists i: nat :: AddedAt(us, t, oid, i)
  }

  /** After `us`, `u` is for a listed instrument and a possible id; it adds an order that is not there, or
      changes or removes one that is, on the side on which it was added. */
  ghost predicate MakesSense(us: seq<Update>, u: Update) {
    && u.ticker < ME_MAX_TICKERS && (u.kind in {ADD, MODIFY, REMOVE} ==> u.oid < ME_MAX_ORDER_IDS)
    && (u.kind == ADD ==> !IsThere(us, u.ticker, u.oid))
    && (u.kind == MODIFY || u.kind == REMOVE ==>
          exists i: nat :: AddedAt(us, u.ticker, u.oid, i) && us[i].side == u.side)
  }

  ghost predicate AllMakeSense(us: seq<Update>)
    decreases |us|
  {
    us == [] || (AllMakeSense(us[..|us| - 1]) && MakesSense(us[..|us| - 1], us[|us| - 1]))
  }

  /** Position `i` is the last that says what the order's price and quantity are. */
  ghost predicate SaidAt(us: seq<Update>, t: nat, oid: nat, i: nat) {
    && i < |us| && Says(us[i], t, oid)
    && forall j :: i < j < |us| ==> !Says(us[j], t, oid)
  }

  predicate Says(u: Update, t: nat, oid: nat) {
    (u.kind == ADD || u.kind == MODIFY) && u.ticker == t && u.oid == oid
  }

  /** The ledger holds the orders that are there, each under its id, with side and priority as it was added
      and with the price and quantity last said. */
  ghost predicate HoldsOpen(us: seq<Update>, t: nat, m: Ledger) {
    && (forall oid: nat :: oid in m <==> IsThere(us, t, oid))
    && (forall oid :: oid in m ==> m[oid].kind == ADD && m[oid].oid == oid && m[oid].ticker == t)
    && (forall oid: nat, i: nat :: i < |us| && AddedAt(us, t, oid, i) ==>
          oid in m && m[oid].side == us[i].side && m[oid].priority == us[i].priority)
    && (forall oid: nat, i: nat :: i < |us| && SaidAt(us, t, oid, i) && oid in m ==>
          m[oid].price == us[i].price && m[oid].qty == us[i].qty)
  }

  lemma AddedOneMore(us: seq<Update>, u: Update, t: nat, oid: nat, i: nat)
    ensures var mine := u.ticker == t && u.oid == oid;
            AddedAt(us + [u], t, oid, i)
            <==> if i == |us| then u.kind == ADD && mine else AddedAt(us, t, oid, i) && !(u.kind == REMOVE && mine)
  {
    var all := us + [u];
    assert all[|us|] == u;
    if i < |us| {
      assert all[i] == us[i];
      if AddedAt(us, t, oid, i) && !(u.kind == REMOVE && u.ticker == t && u.oid == oid) {
        assert forall j :: i < j < |us| ==> all[j] == us[j];
      }
      if AddedAt(all, t, oid, i) {
        forall j | i < j < |us|
          ensures !(us[j].kind == REMOVE && us[j].ticker == t && us[j].oid == oid)
        {
          assert all[j] == us[j];
        }
      }
    }
  }

  lemma OpenOneMore(us: seq<Update>, u: Update, t: nat, oid: nat)
    ensures var mine := u.ticker == t && u.oid == oid;
            IsThere(us + [u], t, oid)
            <==> (u.kind == ADD && mine) || (IsThere(us, t, oid) && !(u.kind == REMOVE && mine))
  {
    hide AddedAt;
    AddedOneMore(us, u, t, oid, |us|);
    if IsThere(us, t, oid) {
      var i: nat :| AddedAt(us, t, oid, i);
      assert i < |us| by {
        IsPosition(us, t, oid, i);
      }
      AddedOneMore(us, u, t, oid, i);
    }
    if IsThere(us + [u], t, oid) {
      var i: nat :| AddedAt(us + [u], t, oid, i);
      AddedOneMore(us, u, t, oid, i);
    }
  }

  lemma SaidOneMore(us: seq<Update>, u: Update, t: nat, oid: nat, i: nat)
    requires i <= |us|
    ensures SaidAt(us + [u], t, oid, i)
            <==> if i == |us| then Says(u, t, oid) else SaidAt(us, t, oid, i) && !Says(u, t, oid)
  {
    hide Says;
    var all := us + [u];
    assert all[|us|] == u;
    if i < |us| {
      assert all[i] == us[i];
      if SaidAt(us, t, oid, i) && !Says(u, t, oid) {
        assert forall j :: i < j < |us| ==> all[j] == us[j];
      }
      if SaidAt(all, t, oid, i) {
        forall j | i < j < |us|
          ensures !Says(us[j], t, oid)
        {
          assert all[j] == us[j];
        }
      }
    }
  }

  lemma IsPosition(us: seq<Update>, t: nat, oid: nat, i: nat)
    requires AddedAt(us, t, oid, i)
    ensures i < |us|
  {
  }

  lemma RecordHoldsOpen(us: seq<Update>, t: nat, m: Ledger, u: Update)
    requires HoldsOpen(us, t, m) && (u.ticker == t ==> Recordable(m, u))
    ensures HoldsOpen(us + [u], t, if u.ticker == t then Record(m, u) else m)
  {
    hide AddedAt, IsThere, SaidAt;
    var m', all := if u.ticker == t then Record(m, u) else m, us + [u];
    forall oid: nat
      ensures oid in m' <==> IsThere(all, t, oid)
    {
      OpenOneMore(us, u, t, oid);
    }
    forall oid: nat, i: nat | i < |all| && AddedAt(all, t, oid, i)
      ensures oid in m' && m'[oid].side == all[i].side && m'[oid].priority == all[i].priority
    {
      AddedOneMore(us, u, t, oid, i);
      IsPosition(all, t, oid, i);
    }
    forall oid: nat, i: nat | i < |all| && SaidAt(all, t, oid, i) && oid in m'
      ensures m'[oid].price == all[i].price && m'[oid].qty == all[i].qty
    {
      SaidOneMore(us, u, t, oid, i);
    }
  }

  lemma MakesSenseMeans(us: seq<Update>, u: Update, m: Ledger)
    requires HoldsOpen(us, u.ticker, m)
    ensures MakesSense(us, u) <==>
            && u.ticker < ME_MAX_TICKERS && Recordable(m, u)
            && (u.kind in {ADD, MODIFY, REMOVE} ==> u.oid < ME_MAX_ORDER_IDS)
  {
    var t := u.ticker;
    if u.kind == MODIFY || u.kind == REMOVE {
      if i: nat :| AddedAt(us, t, u.oid, i) && us[i].side == u.side {
        assert u.oid in m && m[u.oid].side == u.side;
      } else if u.oid in m {
        var i: nat :| AddedAt(us, t, u.oid, i);
        assert m[u.oid].side == us[i].side != u.side;
      }
    }
  }

  lemma {:induction false} LedgerHoldsOpen(us: seq<Update>, t: nat)
    requires AllMakeSense(us)
    ensures HoldsOpen(us, t, Synthesize(t, us))
    decreases |us|
  {
    hide HoldsOpen, Record, Recordable, MakesSense;
    if us == [] {
      NothingOpen(t);
    } else {
      var n := |us| - 1;
      LedgerHoldsOpen(us[..n], t);
      SenseIsRecordable(us[..n], us[n], t);
      RecordHoldsOpen(us[..n], t, Synthesize(t, us[..n]), us[n]);
      assert us == us[..n] + [us[n]];
    }
  }

  lemma NothingOpen(t: nat)
    ensures HoldsOpen([], t, map[])
  {
  }

  lemma SenseIsRecordable(us: seq<Update>, u: Update, t: nat)
    requires HoldsOpen(us, t, Synthesize(t, us)) && MakesSense(us, u)
    ensures u.ticker == t ==> Recordable(Synthesize(t, us), u)
  {
    hide HoldsOpen, MakesSense, Recordable;
    if u.ticker == t {
      MakesSenseMeans(us, u, Synthesize(t, us));
    }
  }

  /** Whatever it has taken in so far, the synthesizer takes in one more numbered update if and only if its number
      is the next one and it makes sense after the others; nothing else is let through, and nothing that makes
      sense is refused. */
  lemma TakesWhatMakesSense(us: seq<Update>, n: Numbered)
    requires AllMakeSense(us)
    ensures Acceptable(Ledgers(us), |us|, n) <==> n.seqNum == |us| + 1 && MakesSense(us, n.update)
    ensures Acceptable(Ledgers(us), |us|, n) ==> AllMakeSense(us + [n.update])
  {
    hide HoldsOpen, MakesSense, Recordable;
    LedgerHoldsOpen(us, n.update.ticker);
    MakesSenseMeans(us, n.update, Synthesize(n.update.ticker, us));
    assert (us + [n.update])[..|us|] == us;
  }

  /** The ADD case as written (snapshot_sythesizer.cpp:61). */
  function RecordAsWritten(m: Ledger, u: Update): Ledger {
    if u.kind == ADD then m[u.ticker := u] else Record(m, u)
  }

  /** As written, folding in a new order is right exactly when its order id happens to equal its
      ticker id; otherwise the exchange's later removal of that order makes the process exit. */
  lemma AddAsWritten(m: Ledger, u: Update, remove: Update)
    requires u.kind == ADD && Recordable(m, u)
    requires remove.kind == REMOVE && remove.oid == u.oid && remove.side == u.side
    ensures RecordAsWritten(m, u) == Record(m, u) <==> u.oid == u.ticker
    ensures Recordable(RecordAsWritten(m, u), remove) <==> u.oid == u.ticker
  {
    assert u.oid in Record(m, u);
    assert u.oid in RecordAsWritten(m, u) <==> u.oid == u.ticker;
  }
}
