/** What the check for the end of a recovery accepts, whatever the two queues hold. */
module SyncCheck {
  import opened Common
  import opened Recovery
  import MarketData

  /** The queue has the numbers below `n` and no others, with the start marker in front. */
  ghost predicate Begun(q: Queue, n: nat) {
    n > 0 && (forall k: nat :: k in q <==> k < n) && q[0].kind == SNAPSHOT_START
  }

  /** And with the end marker behind. */
  ghost predicate Complete(q: Queue, n: nat) {
    Begun(q, n) && q[n - 1].kind == SNAPSHOT_END
  }

  /** Of the numbers above the anchor the queue has those up to `last` and no others, and none but the last is
      that of a marker. */
  ghost predicate Continued(q: Queue, anchor: nat, last: nat) {
    && anchor <= last && (forall k: nat :: k > anchor ==> (k in q <==> k <= last))
    && (forall k: nat :: anchor < k < last ==> q[k].kind != SNAPSHOT_START && q[k].kind != SNAPSHOT_END)
  }

  lemma BegunIsUnbroken(q: Queue, n: nat)
    ensures Begun(q, n) <==> Unbroken(q) && n == |q|
  {
    if Begun(q, n) {
      MarketData.IntervalSize(q.Keys, 0, n);
    }
  }

  lemma HasLast(q: Queue, n: nat)
    requires Begun(q, n)
    ensures n > 0 && n - 1 in q && 0 in q
  {
  }

  lemma CompleteIsWhole(q: Queue, n: nat)
    ensures Complete(q, n) <==> WholeSnapshot(q) && n == |q|
  {
    hide Begun, Unbroken;
    BegunIsUnbroken(q, n);
    if Begun(q, n) {
      HasLast(q, n);
    }
  }

  lemma ContinuedIsGapless(q: Queue, anchor: nat, last: nat)
    ensures Continued(q, anchor, last) <==> Gapless(q, anchor) && last == anchor + |Above(q, anchor)|
  {
    if Continued(q, anchor, last) {
      MarketData.IntervalSize(Above(q, anchor), anchor + 1, last + 1);
    }
  }

  /** The queued snapshot is complete, with `n` messages, and the queued incrementals continue it from the number
      in its end marker up to `last`. */
  ghost predicate Joined(c: Consumer, n: nat, last: nat) {
    Complete(c.snaps, n) && Continued(c.incs, c.snaps[n - 1].oid, last)
  }

  /** The snapshot has begun and may still be completed. */
  ghost predicate Pending(c: Consumer, n: nat) {
    Begun(c.snaps, n) && c.snaps[n - 1].kind != SNAPSHOT_END
  }

  /** Then everything but the markers is passed on, the snapshot first, and both queues are emptied. */
  lemma CheckEnds(c: Consumer, n: nat, last: nat)
    requires Joined(c, n, last)
    ensures var anchor := c.snaps[n - 1].oid;
            var next := Gather(c.incs, anchor + 1, last + 1);
            Check(c) == Consumer(anchor + 1 + |next|, false, map[], map[], c.out + Gather(c.snaps, 0, n) + next)
  {
    hide Unbroken, Gapless, Gather, Above;
    CompleteIsWhole(c.snaps, n);
    ContinuedIsGapless(c.incs, c.snaps[n - 1].oid, last);
  }

  lemma NotJoined(c: Consumer)
    requires c.inRecovery && forall n: nat, last: nat :: !Joined(c, n, last)
    ensures Check(c) == if exists n: nat :: Pending(c, n) then c else c.(snaps := map[])
  {
    hide Begun, Continued, Unbroken, Gapless, Gather;
    var n := |c.snaps|;
    BegunIsUnbroken(c.snaps, n);
    CompleteIsWhole(c.snaps, n);
    if WholeSnapshot(c.snaps) {
      var anchor := Anchor(c.snaps);
      ContinuedIsGapless(c.incs, anchor, anchor + |Above(c.incs, anchor)|);
      assert !Joined(c, n, anchor + |Above(c.incs, anchor)|);
    }
    forall m: nat | Pending(c, m)
      ensures m == n
    {
      BegunIsUnbroken(c.snaps, m);
    }
    if Unbroken(c.snaps) && !WholeSnapshot(c.snaps) {
      HasLast(c.snaps, n);
      assert Pending(c, n);
    }
  }

  /** A recovery ends if and only if the queues are joined so. Otherwise the snapshot is kept if it may still be
      completed, and given up if not; the incrementals are kept. */
  lemma CheckIsExact(c: Consumer)
    requires c.inRecovery
    ensures !Check(c).inRecovery <==> exists n: nat, last: nat :: Joined(c, n, last)
    ensures Check(c).inRecovery ==>
              Check(c) == if exists n: nat :: Pending(c, n) then c else c.(snaps := map[])
  {
    hide Begun, Complete, Continued, Unbroken, WholeSnapshot, Gapless, Gather, Above, Joined, Pending;
    if n: nat, last: nat :| Joined(c, n, last) {
      CheckEnds(c, n, last);
    } else {
      NotJoined(c);
    }
  }
}
