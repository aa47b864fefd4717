/** How a client follows the numbered update stream over a lossy network, detects a gap, and
    recovers by splicing a snapshot with the updates it queued meanwhile. */
module Recovery {
  import opened Common
  import opened Replica
  import opened Snapshot
  import opened Publishing

  type Queue = map<nat, Update>

  /** The consumer's state. The next expected number is recomputed before it is read again after a
      recovery, so it is 0 here for as long as the recovery lasts. */
  datatype Consumer = Consumer(nextExp: nat, inRecovery: bool, snaps: Queue, incs: Queue, out: seq<Update>)

  const INIT_CONSUMER := Consumer(0, true, map[], map[], [])

  predicate IsMarker(u: Update) {
    u.kind == SNAPSHOT_START || u.kind == SNAPSHOT_END
  }

  /** Every number from `lo` up to but not including `hi` is a key. */
  predicate Covers(q: Queue, lo: nat, hi: nat) {
    forall k: nat :: lo <= k < hi ==> k in q
  }

  /** The messages other than markers at keys from `lo` up to but not including `hi`, in order. */
  function Gather(q: Queue, lo: nat, hi: nat): seq<Update>
    decreases hi
  {
    if hi <= lo then []
    else Gather(q, lo, hi - 1) + (if hi - 1 in q && !IsMarker(q[hi - 1]) then [q[hi - 1]] else [])
  }

  /** No gap from 0 and the start marker in front. */
  predicate Unbroken(q: Queue) {
    Contiguous(q) && |q| > 0 && q[0].kind == SNAPSHOT_START
  }

  predicate Contiguous(q: Queue) {
    Covers(q, 0, |q|) && forall k :: k in q ==> k < |q|
  }

  predicate WholeSnapshot(q: Queue) {
    Unbroken(q) && q[|q| - 1].kind == SNAPSHOT_END
  }

  function Anchor(q: Queue): nat
    requires WholeSnapshot(q)
  {
    q[|q| - 1].oid
  }

  function Above(q: Queue, anchor: nat): set<nat> {
    set k | k in q && k > anchor
  }

  predicate Plain(q: Queue, lo: nat, hi: nat) {
    forall k :: k in q && lo <= k < hi ==> !IsMarker(q[k])
  }

  /** The queued incrementals past the anchor leave no gap and carry no marker before their end. */
  predicate Gapless(q: Queue, anchor: nat) {
    var n := |Above(q, anchor)|;
    && Covers(q, anchor + 1, anchor + 1 + n)
    && (forall k :: k in q ==> k <= anchor + n)
    && Plain(q, anchor + 1, anchor + n)
  }

  /** The queued incrementals that continue the snapshot. */
  function Continuation(q: Queue, anchor: nat): seq<Update> {
    Gather(q, anchor + 1, anchor + 1 + |Above(q, anchor)|)
  }

  /** `checkSnapshotSync`, stated by what it accepts. */
  function Check(c: Consumer): Consumer {
    if WholeSnapshot(c.snaps) then
      var anchor := Anchor(c.snaps);
      if Gapless(c.incs, anchor) then
        var next := Continuation(c.incs, anchor);
        Consumer(anchor + 1 + |next|, false, map[], map[], c.out + Gather(c.snaps, 0, |c.snaps|) + next)
      else c.(snaps := map[])
    else if Unbroken(c.snaps) then c
    else c.(snaps := map[])
  }

  function Enqueued(c: Consumer, isSnapshot: bool, n: Numbered): Consumer {
    if isSnapshot then
      c.(snaps := (if n.seqNum in c.snaps then map[] else c.snaps)[n.seqNum := n.update])
    else
      c.(incs := c.incs[n.seqNum := n.update])
  }

  /** The state in which a message finds its queue: entering recovery empties both queues. */
  function Recovering(c: Consumer): Consumer {
    if c.inRecovery then c else c.(nextExp := 0, inRecovery := true, snaps := map[], incs := map[])
  }

  function OnMessage(c: Consumer, isSnapshot: bool, n: Numbered): Consumer {
    if c.inRecovery || n.seqNum != c.nextExp then
      Check(Enqueued(Recovering(c), isSnapshot, n))
    else if isSnapshot then c
    else c.(nextExp := c.nextExp + 1, out := c.out + [n.update])
  }

  function OnMessages(c: Consumer, isSnapshot: bool, ns: seq<Numbered>): Consumer
    decreases |ns|
  {
    if ns == [] then c
    else OnMessage(OnMessages(c, isSnapshot, ns[..|ns| - 1]), isSnapshot, ns[|ns| - 1])
  }

  /** One read from a socket. Snapshots are ignored outside recovery. */
  datatype Delivery = Delivery(isSnapshot: bool, ns: seq<Numbered>)

  function Receive(c: Consumer, d: Delivery): Consumer {
    if d.isSnapshot && !c.inRecovery then c else OnMessages(c, d.isSnapshot, d.ns)
  }

  function ReceiveAll(ds: seq<Delivery>): Consumer
    decreases |ds|
  {
    if ds == [] then INIT_CONSUMER else Receive(ReceiveAll(ds[..|ds| - 1]), ds[|ds| - 1])
  }

  // ----- what the network may deliver -----

  /** `n` was really sent for the log: an incremental with its number, or message `n.seqNum` of the
      snapshot published at some anchor. It may arrive at any time, any number of times, or never. */
  ghost predicate Genuine(log: seq<Update>, isSnapshot: bool, n: Numbered) {
    if isSnapshot then exists a: nat :: OfSnapshot(log, a, n.seqNum, n.update)
    else 1 <= n.seqNum <= |log| && n.update == log[n.seqNum - 1]
  }

  ghost predicate OfSnapshot(log: seq<Update>, anchor: nat, k: nat, u: Update) {
    anchor <= |log| && k < |SnapshotAfter(log[..anchor])| && SnapshotAfter(log[..anchor])[k] == u
  }

  /** Every queued message belongs to the snapshot that the end marker names. */
  ghost predicate OneSource(log: seq<Update>, q: Queue)
    requires WholeSnapshot(q)
  {
    forall k :: k in q ==> OfSnapshot(log, Anchor(q), k, q[k])
  }

  /** Whenever a snapshot looks whole, its messages come from one publication. */
  ghost predicate UnmixedAt(log: seq<Update>, c: Consumer, isSnapshot: bool, n: Numbered) {
    var q := Enqueued(Recovering(c), isSnapshot, n).snaps;
    (c.inRecovery || n.seqNum != c.nextExp) && WholeSnapshot(q) ==> OneSource(log, q)
  }

  ghost predicate Unmixed(log: seq<Update>, c: Consumer, isSnapshot: bool, ns: seq<Numbered>)
    decreases |ns|
  {
    ns == [] ||
    var m := |ns| - 1;
    Unmixed(log, c, isSnapshot, ns[..m]) && UnmixedAt(log, OnMessages(c, isSnapshot, ns[..m]), isSnapshot, ns[m])
  }

  ghost predicate Plausible(log: seq<Update>, c: Consumer, d: Delivery) {
    && (forall i :: 0 <= i < |d.ns| ==> Genuine(log, d.isSnapshot, d.ns[i]))
    && ((d.isSnapshot && !c.inRecovery) || Unmixed(log, c, d.isSnapshot, d.ns))
  }

  ghost predicate PlausibleRun(log: seq<Update>, ds: seq<Delivery>)
    decreases |ds|
  {
    ds == [] ||
    (PlausibleRun(log, ds[..|ds| - 1]) && Plausible(log, ReceiveAll(ds[..|ds| - 1]), ds[|ds| - 1]))
  }

  // ----- safety -----

  /** Every queued incremental is the log entry of its number. */
  ghost predicate Authentic(log: seq<Update>, q: Queue) {
    forall k :: k in q ==> 1 <= k <= |log| && q[k] == log[k - 1]
  }

  /** What is queued is genuine, and outside recovery what went downstream rebuilds, for every
      instrument, the book of the log up to the next expected number. */
  ghost predicate Safe(log: seq<Update>, c: Consumer) {
    && Authentic(log, c.incs)
    && (!c.inRecovery ==>
          1 <= c.nextExp <= |log| + 1 &&
          forall t: nat :: t < ME_MAX_TICKERS ==> Replay(t, c.out) == Replay(t, log[..c.nextExp - 1]))
  }

  lemma {:induction false} ListingPlain(m: Ledger, n: nat)
    requires forall k :: k in m ==> m[k].kind == ADD
    ensures forall i :: 0 <= i < |Listing(m, n)| ==> Listing(m, n)[i].kind == ADD
  {
    if n > 0 {
      ListingPlain(m, n - 1);
    }
  }

  lemma {:induction false} BodyPlain(ms: seq<Ledger>, n: nat)
    requires n <= |ms| && forall i :: 0 <= i < n ==> forall k :: k in ms[i] ==> ms[i][k].kind == ADD
    ensures forall i :: 0 <= i < |Body(ms, n)| ==> !IsMarker(Body(ms, n)[i])
  {
    if n > 0 {
      BodyPlain(ms, n - 1);
      ListingPlain(ms[n - 1], ME_MAX_ORDER_IDS);
    }
  }

  lemma SnapshotShape(log: seq<Update>)
    requires LegalLog(log)
    ensures var body := Body(Ledgers(log), ME_MAX_TICKERS);
            && SnapshotAfter(log) == [Marker(SNAPSHOT_START, |log|)] + body + [Marker(SNAPSHOT_END, |log|)]
            && forall i :: 0 <= i < |body| ==> !IsMarker(body[i])
  {
    var ms: seq<Ledger> := Ledgers(log);
    forall t: nat | t < ME_MAX_TICKERS
      ensures forall k :: k in ms[t] ==> ms[t][k].kind == ADD
    {
      SynthesizeMirrors(t, log);
    }
    BodyPlain(ms, ME_MAX_TICKERS);
  }

  /** After a marker at 0 the queue holds the messages `body`, none of them a marker. */
  ghost predicate Carries(q: Queue, body: seq<Update>) {
    && 0 in q && IsMarker(q[0])
    && forall i: nat :: 1 <= i <= |body| ==> i in q && q[i] == body[i - 1] && !IsMarker(q[i])
  }

  lemma {:induction false} GatherBody(q: Queue, body: seq<Update>, n: nat)
    requires Carries(q, body) && n <= |body|
    ensures Gather(q, 0, n + 1) == body[..n]
  {
    if n == 0 {
      assert Gather(q, 0, 0) == [];
    } else {
      GatherBody(q, body, n - 1);
      assert body[..n] == body[..n - 1] + [body[n - 1]];
    }
  }

  /** Message `k` of a snapshot. */
  lemma SnapshotMessage(log: seq<Update>, a: nat, k: nat, u: Update)
    requires LegalLog(log) && OfSnapshot(log, a, k, u)
    ensures var body := Body(Ledgers(log[..a]), ME_MAX_TICKERS);
            && (0 < k <= |body| ==> u == body[k - 1] && !IsMarker(u))
            && (k == 0 ==> u == Marker(SNAPSHOT_START, a))
            && (k > |body| ==> k == |body| + 1 && u == Marker(SNAPSHOT_END, a))
  {
    hide LegalLog, Body;
    LegalLogPrefix(log, a);
    SnapshotShape(log[..a]);
  }

  /** A whole queue from one source is that snapshot, message for message. */
  lemma OneSourceIsSnapshot(log: seq<Update>, q: Queue)
    requires LegalLog(log) && WholeSnapshot(q) && OneSource(log, q)
    ensures Anchor(q) <= |log|
    ensures Gather(q, 0, |q|) == Body(Ledgers(log[..Anchor(q)]), ME_MAX_TICKERS)
  {
    hide LegalLog, Body, SnapshotAfter, Ledgers;
    var a, last := Anchor(q), |q| - 1;
    assert last in q && OfSnapshot(log, a, last, q[last]);
    var body := Body(Ledgers(log[..a]), ME_MAX_TICKERS);
    SnapshotMessage(log, a, last, q[last]);
    assert last == |body| + 1;
    forall i: nat | 0 <= i <= |body|
      ensures i in q && if i == 0 then IsMarker(q[i]) else q[i] == body[i - 1] && !IsMarker(q[i])
    {
      SnapshotMessage(log, a, i, q[i]);
    }
    GatherBody(q, body, |body|);
    assert body[..|body|] == body;
    LastIsMarker(q, last);
  }

  lemma LastIsMarker(q: Queue, n: nat)
    requires n in q && IsMarker(q[n])
    ensures Gather(q, 0, n + 1) == Gather(q, 0, n)
  {
  }

  lemma {:induction false} GatherLog(log: seq<Update>, q: Queue, lo: nat, hi: nat)
    requires LegalLog(log) && Authentic(log, q)
    requires 1 <= lo <= hi && lo - 1 <= |log| && Covers(q, lo, hi)
    ensures hi - 1 <= |log| && Gather(q, lo, hi) == log[lo - 1..hi - 1]
    decreases hi
  {
    hide LegalLog;
    if lo < hi {
      GatherLog(log, q, lo, hi - 1);
      assert hi - 1 in q;
      LegalLogKinds(log);
      assert log[lo - 1..hi - 1] == log[lo - 1..hi - 2] + [log[hi - 2]];
    }
  }

  lemma ContinuationIsLog(log: seq<Update>, q: Queue, anchor: nat)
    requires LegalLog(log) && anchor <= |log| && Gapless(q, anchor) && Authentic(log, q)
    ensures anchor + |Continuation(q, anchor)| <= |log|
    ensures Continuation(q, anchor) == log[anchor..anchor + |Continuation(q, anchor)|]
  {
    GatherLog(log, q, anchor + 1, anchor + 1 + |Above(q, anchor)|);
  }

  lemma SpliceRebuilds(log: seq<Update>, before: seq<Update>, anchor: nat, next: seq<Update>, t: nat)
    requires LegalLog(log) && t < ME_MAX_TICKERS
    requires anchor + |next| <= |log| && next == log[anchor..anchor + |next|]
    ensures Replay(t, before + Body(Ledgers(log[..anchor]), ME_MAX_TICKERS) + next) == Replay(t, log[..anchor + |next|])
  {
    var body := Body(Ledgers(log[..anchor]), ME_MAX_TICKERS);
    LegalLogPrefix(log, anchor);
    ApplyAppend(t, EMPTY_VIEW, before + body, next);
    ApplyAppend(t, EMPTY_VIEW, before, body);
    SnapshotRebuildsBook(log[..anchor], t, Replay(t, before));
    ApplyAppend(t, EMPTY_VIEW, log[..anchor], next);
    assert log[..anchor + |next|] == log[..anchor] + next;
  }

  lemma CheckIsSafe(log: seq<Update>, c: Consumer)
    requires LegalLog(log) && Safe(log, c) && c.inRecovery
    requires WholeSnapshot(c.snaps) ==> OneSource(log, c.snaps)
    ensures Safe(log, Check(c))
  {
    hide LegalLog, Body, OneSource, Gapless, Unbroken, ApplyAll, Ledgers, Continuation;
    if WholeSnapshot(c.snaps) && Gapless(c.incs, Anchor(c.snaps)) {
      var a := Anchor(c.snaps);
      var next := Continuation(c.incs, a);
      OneSourceIsSnapshot(log, c.snaps);
      ContinuationIsLog(log, c.incs, a);
      forall t: nat | t < ME_MAX_TICKERS
        ensures Replay(t, Check(c).out) == Replay(t, log[..a + |next|])
      {
        SpliceRebuilds(log, c.out, a, next, t);
      }
    }
  }

  lemma MessageIsSafe(log: seq<Update>, c: Consumer, isSnapshot: bool, n: Numbered)
    requires LegalLog(log) && Safe(log, c) && Genuine(log, isSnapshot, n) && UnmixedAt(log, c, isSnapshot, n)
    ensures Safe(log, OnMessage(c, isSnapshot, n))
  {
    hide LegalLog, Check, WholeSnapshot, OneSource, OfSnapshot, ApplyAll;
    if c.inRecovery || n.seqNum != c.nextExp {
      CheckIsSafe(log, Enqueued(Recovering(c), isSnapshot, n));
    } else if !isSnapshot {
      var m := c.nextExp;
      forall t: nat | t < ME_MAX_TICKERS
        ensures Replay(t, c.out + [n.update]) == Replay(t, log[..m])
      {
        assert Replay(t, c.out) == Replay(t, log[..m - 1]);
        ApplyOne(t, EMPTY_VIEW, c.out, n.update);
        ApplyOne(t, EMPTY_VIEW, log[..m - 1], log[m - 1]);
        assert log[..m] == log[..m - 1] + [log[m - 1]];
      }
    }
  }

  lemma {:induction false} MessagesAreSafe(log: seq<Update>, c: Consumer, isSnapshot: bool, ns: seq<Numbered>)
    requires LegalLog(log) && Safe(log, c) && Unmixed(log, c, isSnapshot, ns)
    requires forall i :: 0 <= i < |ns| ==> Genuine(log, isSnapshot, ns[i])
    ensures Safe(log, OnMessages(c, isSnapshot, ns))
    decreases |ns|
  {
    if ns != [] {
      var m := |ns| - 1;
      assert forall i :: 0 <= i < m ==> ns[..m][i] == ns[i];
      MessagesAreSafe(log, c, isSnapshot, ns[..m]);
      MessageIsSafe(log, OnMessages(c, isSnapshot, ns[..m]), isSnapshot, ns[m]);
    }
  }

  /** Recovery safety. However incrementals are lost, repeated and reordered, and however snapshot
      messages are lost and repeated, as long as each snapshot that looks whole comes from one
      publication: whenever the consumer is not in recovery, what it has passed on rebuilds for
      every instrument exactly the book of the log up to its next expected number. */
  lemma {:induction false} RecoveryIsSafe(log: seq<Update>, ds: seq<Delivery>)
    requires LegalLog(log) && PlausibleRun(log, ds)
    ensures Safe(log, ReceiveAll(ds))
    decreases |ds|
  {
    if ds != [] {
      var c, d := ReceiveAll(ds[..|ds| - 1]), ds[|ds| - 1];
      RecoveryIsSafe(log, ds[..|ds| - 1]);
      if !(d.isSnapshot && !c.inRecovery) {
        MessagesAreSafe(log, c, d.isSnapshot, d.ns);
      }
    }
  }
}
