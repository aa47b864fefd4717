/** Where everything comes from that the market data consumer passes on, and what follows: it can all be
    applied, and never names an order that the client's book does not hold, however often the client
    recovers. */
module Downstream {
  import opened Common
  import opened Ladder
  import opened Replica
  import opened UpdateStream
  import opened Snapshot
  import opened Publishing
  import opened Recovery
  import opened Bbo

  // ----- where an update comes from -----

  /** `u` is entry `j` of the log, met with the book that the log gives in front of it. */
  ghost predicate LogEntry(log: seq<Update>, t: nat, v: View, u: Update, j: nat) {
    j < |log| && u == log[j] && v == Replay(t, log[..j])
  }

  /** `u` restates an order of the book that the log gives at `anchor`, met with that book's older orders. */
  ghost predicate SnapshotEntry(log: seq<Update>, t: nat, v: View, u: Update, anchor: nat) {
    && anchor <= |log|
    && var m := Synthesize(t, log[..anchor]);
       u.oid in m && u == m[u.oid] && v == BelowView(Replay(t, log[..anchor]), u.oid)
  }

  ghost predicate Sourced(log: seq<Update>, t: nat, v: View, u: Update) {
    || u.kind == CLEAR
    || (exists j: nat :: LogEntry(log, t, v, u, j))
    || (exists anchor: nat :: SnapshotEntry(log, t, v, u, anchor))
  }

  /** From `v` on, every update of `us` for instrument `t` has a source. */
  ghost predicate SourcedFrom(log: seq<Update>, t: nat, v: View, us: seq<Update>)
    decreases |us|
  {
    us == [] ||
    var n := |us| - 1;
    SourcedFrom(log, t, v, us[..n]) && (us[n].ticker == t ==> Sourced(log, t, ApplyAll(t, v, us[..n]), us[n]))
  }

  lemma {:induction false} SourcedAppend(log: seq<Update>, t: nat, v: View, a: seq<Update>, b: seq<Update>)
    requires SourcedFrom(log, t, v, a) && SourcedFrom(log, t, ApplyAll(t, v, a), b)
    ensures SourcedFrom(log, t, v, a + b)
    decreases |b|
  {
    hide Sourced;
    if b == [] {
      assert a + b == a;
    } else {
      var n := |b| - 1;
      assert (a + b)[..|a + b| - 1] == a + b[..n];
      SourcedAppend(log, t, v, a, b[..n]);
      ApplyAppend(t, v, a, b[..n]);
    }
  }

  lemma SourcedOne(log: seq<Update>, t: nat, v: View, u: Update)
    requires u.ticker == t ==> Sourced(log, t, v, u)
    ensures SourcedFrom(log, t, v, [u])
  {
    assert [u][..0] == [] && SourcedFrom(log, t, v, []);
  }

  lemma {:induction false} OthersSourced(log: seq<Update>, t: nat, v: View, us: seq<Update>)
    requires forall i :: 0 <= i < |us| ==> us[i].ticker != t
    ensures SourcedFrom(log, t, v, us)
    decreases |us|
  {
    if us != [] {
      OthersSourced(log, t, v, us[..|us| - 1]);
    }
  }

  // ----- the parts of what is passed on -----

  /** A stretch of the log, met with the book in front of it. */
  lemma {:induction false} LogSourced(log: seq<Update>, t: nat, a: nat, b: nat)
    requires a <= b <= |log|
    ensures SourcedFrom(log, t, Replay(t, log[..a]), log[a..b])
    decreases b
  {
    hide Sourced;
    if a < b {
      LogSourced(log, t, a, b - 1);
      assert log[a..b][..b - 1 - a] == log[a..b - 1] && log[..b - 1] == log[..a] + log[a..b - 1];
      ApplyAppend(t, EMPTY_VIEW, log[..a], log[a..b - 1]);
      EntrySourced(log, t, b - 1);
    }
  }

  lemma EntrySourced(log: seq<Update>, t: nat, j: nat)
    requires j < |log|
    ensures Sourced(log, t, Replay(t, log[..j]), log[j])
  {
    assert LogEntry(log, t, Replay(t, log[..j]), log[j], j);
  }

  /** The orders of one instrument in a snapshot. */
  lemma {:induction false} ListingSourced(log: seq<Update>, t: nat, anchor: nat, n: nat)
    requires LegalLog(log) && t < ME_MAX_TICKERS && anchor <= |log|
    ensures SourcedFrom(log, t, EMPTY_VIEW, Listing(Synthesize(t, log[..anchor]), n))
  {
    hide LegalLog, BelowView, Sourced, SourcedFrom, Synthesize;
    var m := Synthesize(t, log[..anchor]);
    if n == 0 {
      OthersSourced(log, t, EMPTY_VIEW, []);
    } else {
      ListingSourced(log, t, anchor, n - 1);
      if n - 1 in m {
        RestatedSourced(log, t, anchor, n - 1);
        SourcedOne(log, t, BelowView(Replay(t, log[..anchor]), n - 1), m[n - 1]);
        SourcedAppend(log, t, EMPTY_VIEW, Listing(m, n - 1), [m[n - 1]]);
      } else {
        assert Listing(m, n) == Listing(m, n - 1);
      }
    }
  }

  lemma RestatedSourced(log: seq<Update>, t: nat, anchor: nat, n: nat)
    requires LegalLog(log) && t < ME_MAX_TICKERS && anchor <= |log| && n in Synthesize(t, log[..anchor])
    ensures var m, v := Synthesize(t, log[..anchor]), Replay(t, log[..anchor]);
            && Sourced(log, t, BelowView(v, n), m[n])
            && ApplyAll(t, EMPTY_VIEW, Listing(m, n)) == BelowView(v, n)
  {
    hide BelowView, Synthesize;
    var m, v := Synthesize(t, log[..anchor]), Replay(t, log[..anchor]);
    AnchorMirrors(log, t, anchor);
    ListingRebuilds(t, m, v, n);
    assert SnapshotEntry(log, t, BelowView(v, n), m[n], anchor);
  }

  /** The synthesizer's orders at an anchor are those of the book there. */
  lemma AnchorMirrors(log: seq<Update>, t: nat, anchor: nat)
    requires LegalLog(log) && t < ME_MAX_TICKERS && anchor <= |log|
    ensures var v := Replay(t, log[..anchor]);
            GoodView(v) && Mirrors(t, Synthesize(t, log[..anchor]), v)
  {
    hide GoodView, Mirrors;
    LegalLogPrefix(log, anchor);
    LegalReplayIsGood(t, log[..anchor]);
    SynthesizeMirrors(t, log[..anchor]);
  }

  lemma {:induction false} BelowOlder(s: seq<SeenOrder>, n: nat)
    ensures forall i :: 0 <= i < |Below(s, n)| ==> Below(s, n)[i].oid < n && Below(s, n)[i] in s
  {
    if s != [] {
      BelowOlder(s[1..], n);
    }
  }

  /** Of two orders at one price the one with the smaller id has the smaller priority. */
  lemma OlderIsAhead(side: Side, s: seq<SeenOrder>, a: SeenOrder, b: SeenOrder)
    requires GoodSeen(side, s) && a in s && b in s && a.price == b.price && a.oid < b.oid
    ensures a.priority < b.priority
  {
    var i :| 0 <= i < |s| && s[i] == a;
    var j :| 0 <= j < |s| && s[j] == b;
    var first, second := if i < j then i else j, if i < j then j else i;
    assert first < second && Ahead(side, s[first], s[second]);
  }

  lemma NextListedIsLegal(t: nat, m: Ledger, v: View, side: Side, k: nat)
    requires GoodView(v) && Mirrors(t, m, v) && IsTradeSide(side) && k < |v.On(side)|
    ensures var n := v.On(side)[k].oid; n in m && Legal(BelowView(v, n), m[n])
  {
    var s, o := v.On(side), v.On(side)[k];
    assert m[o.oid] == Restated(t, o);
    BelowOlder(v.bids, o.oid);
    BelowOlder(v.asks, o.oid);
    var w := Below(s, o.oid);
    forall i | 0 <= i < |w| && w[i].price == o.price
      ensures w[i].priority < o.priority
    {
      OlderIsAhead(side, s, w[i], o);
    }
  }

  lemma NextIsLegal(t: nat, m: Ledger, v: View, n: nat)
    requires GoodView(v) && Mirrors(t, m, v) && n in m
    ensures Legal(BelowView(v, n), m[n])
  {
    hide GoodView, BelowView, Legal;
    if Listed(v.bids, n) {
      var k :| 0 <= k < |v.bids| && v.bids[k].oid == n;
      NextListedIsLegal(t, m, v, BUY, k);
    } else {
      var k :| 0 <= k < |v.asks| && v.asks[k].oid == n;
      NextListedIsLegal(t, m, v, SELL, k);
    }
  }

  lemma {:induction false} ListingTickers(m: Ledger, t: nat, n: nat)
    requires OnTicker(t, m)
    ensures forall i :: 0 <= i < |Listing(m, n)| ==> Listing(m, n)[i].ticker == t
  {
    if n > 0 {
      ListingTickers(m, t, n - 1);
    }
  }

  /** One instrument's part of a snapshot. */
  lemma PartSourced(log: seq<Update>, t: nat, v: View, anchor: nat, i: nat)
    requires LegalLog(log) && t < ME_MAX_TICKERS && i < ME_MAX_TICKERS && anchor <= |log|
    ensures SourcedFrom(log, t, v, [ClearUpdate(i)] + Listing(Synthesize(i, log[..anchor]), ME_MAX_ORDER_IDS))
  {
    hide Listing, LegalLog, SourcedFrom, Synthesize, LogEntry, SnapshotEntry;
    var m, part := Synthesize(i, log[..anchor]), [ClearUpdate(i)];
    SourcedOne(log, t, v, ClearUpdate(i));
    if i == t {
      ApplyClear(t, v);
      ListingSourced(log, t, anchor, ME_MAX_ORDER_IDS);
    } else {
      AnchorMirrors(log, i, anchor);
      MirrorsOnTicker(i, m, Replay(i, log[..anchor]));
      ListingTickers(m, i, ME_MAX_ORDER_IDS);
      OthersSourced(log, t, ApplyAll(t, v, part), Listing(m, ME_MAX_ORDER_IDS));
    }
    SourcedAppend(log, t, v, part, Listing(m, ME_MAX_ORDER_IDS));
  }

  lemma ApplyClear(t: nat, v: View)
    ensures ApplyAll(t, v, [ClearUpdate(t)]) == EMPTY_VIEW
  {
    assert [ClearUpdate(t)][..0] == [];
  }

  lemma {:induction false} BodySourced(log: seq<Update>, t: nat, v: View, anchor: nat, n: nat)
    requires LegalLog(log) && t < ME_MAX_TICKERS && n <= ME_MAX_TICKERS && anchor <= |log|
    ensures SourcedFrom(log, t, v, Body(Ledgers(log[..anchor]), n))
  {
    hide Listing, LegalLog, Synthesize, SourcedFrom;
    if n == 0 {
      OthersSourced(log, t, v, []);
    } else {
      var before := Body(Ledgers(log[..anchor]), n - 1);
      var listing := Listing(Synthesize(n - 1, log[..anchor]), ME_MAX_ORDER_IDS);
      BodySourced(log, t, v, anchor, n - 1);
      PartSourced(log, t, ApplyAll(t, v, before), anchor, n - 1);
      SourcedAppend(log, t, v, before, [ClearUpdate(n - 1)] + listing);
      Regroup(before, [ClearUpdate(n - 1)], listing);
    }
  }

  /** A spliced snapshot and the updates behind it. */
  lemma SpliceSourced(log: seq<Update>, before: seq<Update>, a: nat, next: seq<Update>, t: nat)
    requires LegalLog(log) && t < ME_MAX_TICKERS && SourcedFrom(log, t, EMPTY_VIEW, before)
    requires a + |next| <= |log| && next == log[a..a + |next|]
    ensures SourcedFrom(log, t, EMPTY_VIEW, before + Body(Ledgers(log[..a]), ME_MAX_TICKERS) + next)
  {
    hide Listing, Body, SourcedFrom;
    var body := Body(Ledgers(log[..a]), ME_MAX_TICKERS);
    BodySourced(log, t, Replay(t, before), a, ME_MAX_TICKERS);
    SourcedAppend(log, t, EMPTY_VIEW, before, body);
    LegalLogPrefix(log, a);
    SnapshotRebuildsBook(log[..a], t, Replay(t, before));
    ApplyAppend(t, EMPTY_VIEW, before, body);
    LogSourced(log, t, a, a + |next|);
    SourcedAppend(log, t, EMPTY_VIEW, before + body, next);
  }

  // ----- every run -----

  /** Everything passed on so far has a source, for every instrument. */
  ghost predicate Traced(log: seq<Update>, c: Consumer) {
    forall t: nat :: t < ME_MAX_TICKERS ==> SourcedFrom(log, t, EMPTY_VIEW, c.out)
  }

  lemma CheckIsTraced(log: seq<Update>, c: Consumer)
    requires LegalLog(log) && Safe(log, c) && Traced(log, c) && c.inRecovery
    requires WholeSnapshot(c.snaps) ==> OneSource(log, c.snaps)
    ensures Traced(log, Check(c))
  {
    hide Body, Listing, OneSource, Gapless, Unbroken, LegalFrom, SourcedFrom;
    if WholeSnapshot(c.snaps) && Gapless(c.incs, Anchor(c.snaps)) {
      var a := Anchor(c.snaps);
      var next := Continuation(c.incs, a);
      OneSourceIsSnapshot(log, c.snaps);
      ContinuationIsLog(log, c.incs, a);
      forall t: nat | t < ME_MAX_TICKERS
        ensures SourcedFrom(log, t, EMPTY_VIEW, Check(c).out)
      {
        SpliceSourced(log, c.out, a, next, t);
      }
    }
  }

  lemma MessageIsTraced(log: seq<Update>, c: Consumer, isSnapshot: bool, n: Numbered)
    requires LegalLog(log) && Safe(log, c) && Traced(log, c) && Genuine(log, isSnapshot, n)
    requires UnmixedAt(log, c, isSnapshot, n)
    ensures Traced(log, OnMessage(c, isSnapshot, n))
  {
    hide LegalFrom, Check, WholeSnapshot, OneSource, SourcedFrom, Sourced;
    if c.inRecovery || n.seqNum != c.nextExp {
      CheckIsTraced(log, Enqueued(Recovering(c), isSnapshot, n));
    } else if !isSnapshot {
      var j := c.nextExp - 1;
      forall t: nat | t < ME_MAX_TICKERS
        ensures SourcedFrom(log, t, EMPTY_VIEW, c.out + [n.update])
      {
        assert Replay(t, c.out) == Replay(t, log[..j]);
        EntrySourced(log, t, j);
        SourcedOne(log, t, Replay(t, c.out), n.update);
        SourcedAppend(log, t, EMPTY_VIEW, c.out, [n.update]);
      }
    }
  }

  lemma {:induction false} MessagesAreTraced(log: seq<Update>, c: Consumer, isSnapshot: bool, ns: seq<Numbered>)
    requires LegalLog(log) && Safe(log, c) && Traced(log, c) && Unmixed(log, c, isSnapshot, ns)
    requires forall i :: 0 <= i < |ns| ==> Genuine(log, isSnapshot, ns[i])
    ensures Traced(log, OnMessages(c, isSnapshot, ns))
    decreases |ns|
  {
    hide LegalLog, Safe, Traced, Genuine, UnmixedAt, OnMessage;
    if ns != [] {
      var m := |ns| - 1;
      assert forall i :: 0 <= i < m ==> ns[..m][i] == ns[i];
      MessagesAreTraced(log, c, isSnapshot, ns[..m]);
      MessagesAreSafe(log, c, isSnapshot, ns[..m]);
      MessageIsTraced(log, OnMessages(c, isSnapshot, ns[..m]), isSnapshot, ns[m]);
    }
  }

  lemma StartsTraced(log: seq<Update>)
    ensures Traced(log, INIT_CONSUMER)
  {
  }

  /** Over any run everything passed on is an entry of the log, met with the book in front of it, or an
      order restated from one of the log's books, met with the older orders of that book. */
  lemma {:induction false} OutputIsTraced(log: seq<Update>, ds: seq<Delivery>)
    requires LegalLog(log) && PlausibleRun(log, ds)
    ensures Traced(log, ReceiveAll(ds))
    decreases |ds|
  {
    hide LegalLog, OnMessages, Unmixed, Genuine, Traced;
    if ds == [] {
      StartsTraced(log);
    } else {
      var c, d := ReceiveAll(ds[..|ds| - 1]), ds[|ds| - 1];
      OutputIsTraced(log, ds[..|ds| - 1]);
      RecoveryIsSafe(log, ds[..|ds| - 1]);
      if !(d.isSnapshot && !c.inRecovery) {
        MessagesAreTraced(log, c, d.isSnapshot, d.ns);
      }
    }
  }

  // ----- what can be applied -----

  lemma SourcedIsApplicable(log: seq<Update>, t: nat, v: View, u: Update)
    requires LegalLog(log) && t < ME_MAX_TICKERS && u.ticker == t && Sourced(log, t, v, u)
    ensures Applicable(v, u)
  {
    hide Legal, BelowView, Synthesize, LegalLog;
    if j: nat :| LogEntry(log, t, v, u, j) {
      EntryIsLegal(log, t, j);
    } else if anchor: nat :| SnapshotEntry(log, t, v, u, anchor) {
      AnchorMirrors(log, t, anchor);
      NextIsLegal(t, Synthesize(t, log[..anchor]), Replay(t, log[..anchor]), u.oid);
    }
  }

  lemma EntryIsLegal(log: seq<Update>, t: nat, j: nat)
    requires LegalLog(log) && t < ME_MAX_TICKERS && j < |log| && log[j].ticker == t
    ensures Legal(Replay(t, log[..j]), log[j])
  {
    hide Legal;
    LegalPrefix(t, EMPTY_VIEW, log, j + 1);
    assert log[..j + 1][..j] == log[..j];
  }

  lemma {:induction false} SourcedFromApplicable(log: seq<Update>, t: nat, us: seq<Update>)
    requires LegalLog(log) && t < ME_MAX_TICKERS && SourcedFrom(log, t, EMPTY_VIEW, us)
    ensures ApplicableFrom(t, EMPTY_VIEW, us)
    decreases |us|
  {
    hide LegalLog, Sourced, Applicable;
    if us != [] {
      var n := |us| - 1;
      SourcedFromApplicable(log, t, us[..n]);
      if us[n].ticker == t {
        SourcedIsApplicable(log, t, Replay(t, us[..n]), us[n]);
      }
    }
  }

  /** What has been passed on so far can be applied, for every instrument. */
  ghost predicate Usable(c: Consumer) {
    forall t: nat :: t < ME_MAX_TICKERS ==> ApplicableFrom(t, EMPTY_VIEW, c.out)
  }

  lemma TracedIsUsable(log: seq<Update>, c: Consumer)
    requires LegalLog(log) && Traced(log, c)
    ensures Usable(c)
  {
    hide LegalLog, SourcedFrom, ApplicableFrom;
    forall t: nat | t < ME_MAX_TICKERS
      ensures ApplicableFrom(t, EMPTY_VIEW, c.out)
    {
      SourcedFromApplicable(log, t, c.out);
    }
  }

  /** Over any run the stream passed on can be applied from an empty book to its end, so the client's
      book never looks up an order that is not there. */
  lemma OutputIsUsable(log: seq<Update>, ds: seq<Delivery>)
    requires LegalLog(log) && PlausibleRun(log, ds)
    ensures Usable(ReceiveAll(ds))
  {
    hide LegalLog, PlausibleRun, Traced, Usable;
    OutputIsTraced(log, ds);
    TracedIsUsable(log, ReceiveAll(ds));
  }
}
