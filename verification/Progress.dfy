/** When a recovery completes: a whole snapshot and no gap behind it are enough. */
module Progress {
  import opened Common
  import opened Snapshot
  import opened Publishing
  import opened Recovery
  import opened Anchors
  import opened Comparing

  /** The messages of the snapshot published at `anchor`, numbered as they are sent. */
  function SnapshotMessages(log: seq<Update>, anchor: nat): seq<Numbered>
    requires anchor <= |log|
  {
    NumberFrom(0, SnapshotAfter(log[..anchor]))
  }

  lemma MessagesShape(log: seq<Update>, anchor: nat)
    requires LegalLog(log) && anchor <= |log|
    ensures var ns := SnapshotMessages(log, anchor);
            && |ns| >= 2 && ns[0].update == Marker(SNAPSHOT_START, anchor)
            && ns[|ns| - 1].update == Marker(SNAPSHOT_END, anchor)
            && forall i :: 0 < i < |ns| - 1 ==> !IsMarker(ns[i].update)
  {
    hide LegalLog, Body, Ledgers;
    LegalLogPrefix(log, anchor);
    SnapshotShape(log[..anchor]);
    var body := Body(Ledgers(log[..anchor]), ME_MAX_TICKERS);
    assert forall i :: 0 < i <= |body| ==> SnapshotAfter(log[..anchor])[i] == body[i - 1];
  }

  /** The whole queue is one publication, with its anchor in both markers. */
  lemma QueueIsSnapshot(log: seq<Update>, anchor: nat)
    requires LegalLog(log) && anchor <= |log|
    ensures var ns := SnapshotMessages(log, anchor);
            var q := QueueOf(ns, |ns|);
            WholeSnapshot(q) && Anchor(q) == anchor && q[0].oid == anchor && OneSource(log, q)
  {
    hide LegalLog, SnapshotAfter, QueueOf, WholeSnapshot;
    var ns := SnapshotMessages(log, anchor);
    MessagesShape(log, anchor);
    assert 0 in QueueOf(ns, |ns|) && |ns| - 1 in QueueOf(ns, |ns|);
    WholeQueue(QueueOf(ns, |ns|), |ns|);
  }

  /** The state in which the last message of the snapshot is checked. */
  lemma BeforeTheLast(log: seq<Update>, c: Consumer, anchor: nat)
    requires LegalLog(log) && anchor <= |log| && Ready(c)
    ensures var ns := SnapshotMessages(log, anchor);
            && |ns| >= 2
            && OnMessages(c, true, ns) == Check(c.(snaps := QueueOf(ns, |ns|)))
            && OnMessagesComparing(c, true, ns) == CheckComparing(c.(snaps := QueueOf(ns, |ns|)))
  {
    hide LegalLog, SnapshotAfter, QueueOf, WholeSnapshot, Check, CheckComparing, Unbroken;
    hide OnMessage, OnMessageComparing;
    var ns := SnapshotMessages(log, anchor);
    var last := |ns| - 1;
    MessagesShape(log, anchor);
    Accumulates(c, ns, last);
    AccumulatesComparing(c, ns, last);
    QueueGrows(ns, last);
    LastIsChecked(c.(snaps := QueueOf(ns, last)), ns[last]);
  }

  lemma LastIsChecked(c: Consumer, n: Numbered)
    requires c.inRecovery && n.seqNum !in c.snaps
    ensures OnMessage(c, true, n) == Check(c.(snaps := c.snaps[n.seqNum := n.update]))
    ensures OnMessageComparing(c, true, n) == CheckComparing(c.(snaps := c.snaps[n.seqNum := n.update]))
  {
    hide Check, CheckComparing;
  }

  lemma SameUntilWhole(c: Consumer, n: Numbered)
    requires c.inRecovery && !WholeSnapshot(Enqueued(c, true, n).snaps)
    ensures OnMessageComparing(c, true, n) == OnMessage(c, true, n)
  {
    hide WholeSnapshot, Check;
  }

  /** Until the last message comes the comparison makes no difference. */
  lemma {:induction false} AccumulatesComparing(c: Consumer, ns: seq<Numbered>, n: nat)
    requires Ready(c) && 0 < n <= |ns| && forall i :: 0 <= i < |ns| ==> ns[i].seqNum == i
    requires ns[0].update.kind == SNAPSHOT_START && forall i :: 0 < i < n ==> ns[i].update.kind != SNAPSHOT_END
    ensures OnMessagesComparing(c, true, ns[..n]) == c.(snaps := QueueOf(ns, n))
  {
    hide OnMessage, OnMessageComparing, Unbroken, WholeSnapshot, QueueOf, Check;
    assert ns[..n][..n - 1] == ns[..n - 1];
    QueueGrows(ns, n - 1);
    NotYetWhole(QueueOf(ns, n), n);
    if n == 1 {
      NoMessages(c, ns);
      FirstWaits(c, ns[0]);
      SameUntilWhole(c, ns[0]);
      assert OnMessagesComparing(c, true, ns[..0]) == c;
    } else {
      AccumulatesComparing(c, ns, n - 1);
      Waits(c, QueueOf(ns, n - 1), ns[n - 1]);
      SameUntilWhole(c.(snaps := QueueOf(ns, n - 1)), ns[n - 1]);
    }
  }

  /** Recovery completes. A recovering consumer that receives a whole snapshot, message by message, leaves
      recovery if and only if the updates it has queued meanwhile continue the snapshot without a gap. It
      then expects the number behind the last of them, and has passed on the snapshot's orders and those
      updates. Comparing the anchors does not stand in the way. */
  lemma RecoveryCompletes(log: seq<Update>, c: Consumer, anchor: nat)
    requires LegalLog(log) && anchor <= |log| && Ready(c) && Authentic(log, c.incs)
    ensures var c' := OnMessages(c, true, SnapshotMessages(log, anchor));
            && OnMessagesComparing(c, true, SnapshotMessages(log, anchor)) == c'
            && (!c'.inRecovery <==> Gapless(c.incs, anchor))
            && (Gapless(c.incs, anchor) ==>
                  var next := Continuation(c.incs, anchor);
                  && anchor + |next| <= |log| && next == log[anchor..anchor + |next|]
                  && c'.nextExp == anchor + |next| + 1
                  && c'.out == c.out + Body(Ledgers(log[..anchor]), ME_MAX_TICKERS) + next)
  {
    hide LegalLog, SnapshotAfter, QueueOf, OneSource, Gapless, Body, WholeSnapshot, Continuation, Gather, Ledgers;
    BeforeTheLast(log, c, anchor);
    QueueIsSnapshot(log, anchor);
    var ns := SnapshotMessages(log, anchor);
    OneSourceIsSnapshot(log, QueueOf(ns, |ns|));
    if Gapless(c.incs, anchor) {
      ContinuationIsLog(log, c.incs, anchor);
    }
  }
}
