/** A snapshot line by line: what it lists, in which order, and that it leaves nothing out. */
module SnapshotLines {
  import opened Common
  import opened Snapshot
  import opened Publishing

  predicate IsOrder(u: Update, t: nat, oid: nat) {
    u.kind == ADD && u.ticker == t && u.oid == oid && oid < ME_MAX_ORDER_IDS
  }

  /** Every ledger holds orders of its instrument under their ids. */
  ghost predicate WellKept(ms: seq<Ledger>) {
    forall t, oid :: 0 <= t < |ms| && oid in ms[t] ==> IsOrder(ms[t][oid], t, oid)
  }

  predicate IsClear(u: Update, t: nat) {
    u == Update(CLEAR, ORDER_ID_INVALID, t, INVALID, PRICE_INVALID, QTY_INVALID, PRIORITY_INVALID)
  }

  /** A line is the CLEAR of one of the first `n` instruments, or one of its orders. */
  ghost predicate IsLine(ms: seq<Ledger>, n: nat, u: Update)
    requires n <= |ms|
  {
    && u.ticker < n
    && (IsClear(u, u.ticker) || (u.kind == ADD && u.oid in ms[u.ticker] && u == ms[u.ticker][u.oid]))
  }

  /** One instrument after the other; its CLEAR in front of its orders, and these by id. */
  predicate InFront(a: Update, b: Update) {
    || a.ticker < b.ticker
    || (a.ticker == b.ticker && b.kind == ADD && (a.kind == CLEAR || (a.kind == ADD && a.oid < b.oid)))
  }

  ghost predicate Ordered(lines: seq<Update>) {
    forall i, j :: 0 <= i < j < |lines| ==> InFront(lines[i], lines[j])
  }

  ghost predicate HasClear(lines: seq<Update>, t: nat) {
    exists i :: 0 <= i < |lines| && IsClear(lines[i], t)
  }

  /** Every CLEAR and every order of the first `n` instruments is there. */
  ghost predicate Full(ms: seq<Ledger>, n: nat, lines: seq<Update>)
    requires n <= |ms|
  {
    && (forall t: nat :: t < n ==> HasClear(lines, t))
    && (forall t: nat, oid :: t < n && oid in ms[t] ==> ms[t][oid] in lines)
  }

  ghost predicate Lines(ms: seq<Ledger>, n: nat, lines: seq<Update>)
    requires n <= |ms|
  {
    (forall i :: 0 <= i < |lines| ==> IsLine(ms, n, lines[i])) && Ordered(lines) && Full(ms, n, lines)
  }

  lemma {:induction false} ListingLines(m: Ledger, t: nat, n: nat)
    requires forall oid :: oid in m ==> IsOrder(m[oid], t, oid)
    ensures forall i :: 0 <= i < |Listing(m, n)| ==>
              var u := Listing(m, n)[i]; u.oid in m && u == m[u.oid] && u.oid < n
    ensures Ordered(Listing(m, n))
    ensures forall oid :: oid in m && oid < n ==> m[oid] in Listing(m, n)
  {
    if n > 0 {
      ListingLines(m, t, n - 1);
      assert forall oid :: oid in m && oid < n - 1 ==> m[oid] in Listing(m, n - 1);
    }
  }

  lemma MoreIsFull(ms: seq<Ledger>, n: nat, lines: seq<Update>, listing: seq<Update>)
    requires n < |ms| && Full(ms, n, lines) && forall oid :: oid in ms[n] ==> ms[n][oid] in listing
    ensures Full(ms, n + 1, lines + [ClearUpdate(n)] + listing)
  {
    var all := lines + [ClearUpdate(n)] + listing;
    forall t: nat | t < n + 1
      ensures HasClear(all, t)
    {
      if t < n {
        assert HasClear(lines, t);
        var i :| 0 <= i < |lines| && IsClear(lines[i], t);
        assert all[i] == lines[i];
      } else {
        assert IsClear(all[|lines|], n);
      }
    }
    forall t: nat, oid | t < n + 1 && oid in ms[t]
      ensures ms[t][oid] in all
    {
      assert t < n ==> ms[t][oid] in lines;
    }
  }

  lemma MoreLines(ms: seq<Ledger>, n: nat, lines: seq<Update>, listing: seq<Update>)
    requires n < |ms| && WellKept(ms) && Lines(ms, n, lines)
    requires forall i :: 0 <= i < |listing| ==> listing[i].oid in ms[n] && listing[i] == ms[n][listing[i].oid]
    requires Ordered(listing) && forall oid :: oid in ms[n] ==> ms[n][oid] in listing
    ensures Lines(ms, n + 1, lines + [ClearUpdate(n)] + listing)
  {
    var all := lines + [ClearUpdate(n)] + listing;
    forall i | 0 <= i < |all|
      ensures IsLine(ms, n + 1, all[i])
    {
      if i < |lines| {
        assert IsLine(ms, n, lines[i]) && all[i] == lines[i];
      } else if i > |lines| {
        assert all[i] == listing[i - |lines| - 1];
        assert IsOrder(all[i], n, all[i].oid);
      }
    }
    forall i, j | 0 <= i < j < |all|
      ensures InFront(all[i], all[j])
    {
      assert i < |lines| ==> IsLine(ms, n, lines[i]);
      if j < |lines| {
        assert InFront(lines[i], lines[j]);
      } else if j > |lines| {
        var b := listing[j - |lines| - 1];
        assert all[j] == b && IsOrder(b, n, b.oid);
        assert i > |lines| ==> InFront(listing[i - |lines| - 1], b);
      }
    }
    MoreIsFull(ms, n, lines, listing);
  }

  lemma NoLines(ms: seq<Ledger>)
    ensures Lines(ms, 0, [])
  {
  }

  lemma {:induction false} BodyLines(ms: seq<Ledger>, n: nat)
    requires n <= |ms| && WellKept(ms)
    ensures Lines(ms, n, Body(ms, n))
  {
    hide Lines;
    if n == 0 {
      NoLines(ms);
    } else {
      BodyLines(ms, n - 1);
      ListingLines(ms[n - 1], n - 1, ME_MAX_ORDER_IDS);
      MoreLines(ms, n - 1, Body(ms, n - 1), Listing(ms[n - 1], ME_MAX_ORDER_IDS));
    }
  }

  /** A snapshot: between two markers with the number of the last update folded in, a CLEAR for every instrument,
      each followed by the instrument's orders by ascending id; all of them, once, and nothing else. */
  lemma SnapshotLists(ms: seq<Ledger>, last: nat) returns (lines: seq<Update>)
    requires WellKept(ms)
    ensures SnapshotOf(ms, last)
         == [Update(SNAPSHOT_START, last, TICKER_ID_INVALID, INVALID, PRICE_INVALID, QTY_INVALID, PRIORITY_INVALID)]
          + lines
          + [Update(SNAPSHOT_END, last, TICKER_ID_INVALID, INVALID, PRICE_INVALID, QTY_INVALID, PRIORITY_INVALID)]
    ensures Lines(ms, |ms|, lines)
  {
    hide Lines, Body, WellKept;
    lines := Body(ms, |ms|);
    BodyLines(ms, |ms|);
  }

  lemma SmallId(us: seq<Update>, u: Update)
    requires MakesSense(us, u)
    ensures u.kind == ADD || u.kind == MODIFY ==> u.oid < ME_MAX_ORDER_IDS
  {
  }

  lemma {:induction false} SmallIds(us: seq<Update>, t: nat)
    requires AllMakeSense(us)
    ensures forall oid :: oid in Synthesize(t, us) ==> oid < ME_MAX_ORDER_IDS
    decreases |us|
  {
    hide MakesSense;
    if us != [] {
      SmallIds(us[..|us| - 1], t);
      SmallId(us[..|us| - 1], us[|us| - 1]);
    }
  }

  /** The ledgers of updates that make sense are well kept. */
  lemma LedgersAreWellKept(us: seq<Update>)
    requires AllMakeSense(us)
    ensures WellKept(Ledgers(us))
  {
    hide AllMakeSense, IsThere, AddedAt, SaidAt;
    forall t, oid | 0 <= t < ME_MAX_TICKERS && oid in Synthesize(t, us)
      ensures IsOrder(Synthesize(t, us)[oid], t, oid)
    {
      LedgerHoldsOpen(us, t);
      SmallIds(us, t);
    }
  }
}
