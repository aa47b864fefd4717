/** The market-data consumer as it runs: queues keyed by sequence number, scanned in key order. */
module MarketData {
  import opened Common
  import opened Publishing
  import opened Recovery

  // ----- scanning a map in key order -----

  lemma {:induction false} FindLeast(s: set<nat>) returns (least: nat)
    requires s != {}
    ensures least in s && forall y :: y in s ==> least <= y
    decreases |s|
  {
    var x :| x in s;
    if s == {x} {
      least := x;
    } else {
      assert forall y :: y in s ==> y == x || y in s - {x};
      var m := FindLeast(s - {x});
      least := if m <= x then m else x;
    }
  }

  lemma HasLeast(s: set<nat>)
    requires s != {}
    ensures exists x :: x in s && forall y :: y in s ==> x <= y
  {
    var x := FindLeast(s);
  }

  function Least(s: set<nat>): (x: nat)
    requires s != {}
    ensures x in s && forall y :: y in s ==> x <= y
  {
    HasLeast(s);
    var x :| x in s && forall y :: y in s ==> x <= y;
    x
  }

  /** `keys` lists the keys of `q` in ascending order, as iterating over the map does. */
  ghost predicate InKeyOrder(q: Queue, keys: seq<nat>) {
    && |keys| == |q|
    && (forall i, j :: 0 <= i < j < |keys| ==> keys[i] < keys[j])
    && (forall k :: k in q <==> k in keys)
  }

  method KeysInOrder(q: Queue) returns (keys: seq<nat>)
    ensures InKeyOrder(q, keys)
  {
    keys := [];
    var left := q.Keys;
    while left != {}
      invariant |keys| + |left| == |q.Keys|
      invariant forall i, j :: 0 <= i < j < |keys| ==> keys[i] < keys[j]
      invariant forall i, k :: 0 <= i < |keys| && k in left ==> keys[i] < k
      invariant forall k :: k in q <==> k in keys || k in left
    {
      var x := Least(left);
      keys, left := keys + [x], left - {x};
    }
  }

  /** Keys in order count up from 0 exactly when they are the first so many numbers. */
  lemma CountsUp(q: Queue, r: seq<nat>)
    requires InKeyOrder(q, r)
    ensures Contiguous(q) <==> forall i :: 0 <= i < |r| ==> r[i] == i
  {
    if Contiguous(q) {
      forall i | 0 <= i < |r|
        ensures r[i] == i
      {
        assert r[|r| - 1] in r;
        AtLeastIndex(r, i);
        AtMostIndex(r, i);
      }
    }
    if forall i :: 0 <= i < |r| ==> r[i] == i {
      forall k: nat | k < |q|
        ensures k in q
      {
        assert r[k] == k && k in r;
      }
      forall k | k in q
        ensures k < |q|
      {
        assert k in r;
      }
    }
  }

  lemma {:induction false} AtLeastIndex(r: seq<nat>, i: nat)
    requires (forall i, j :: 0 <= i < j < |r| ==> r[i] < r[j]) && i < |r|
    ensures r[i] >= i
  {
    if i > 0 {
      AtLeastIndex(r, i - 1);
      assert r[i - 1] < r[i];
    }
  }

  lemma {:induction false} AtMostIndex(r: seq<nat>, i: nat)
    requires (forall i, j :: 0 <= i < j < |r| ==> r[i] < r[j]) && i < |r|
    requires r[|r| - 1] < |r|
    ensures r[i] <= i
    decreases |r| - i
  {
    if i < |r| - 1 {
      AtMostIndex(r, i + 1);
      assert r[i] < r[i + 1];
    }
  }

  /** The first `i` keys have been looked at and exactly `n` numbers past the anchor were there. */
  ghost predicate Scanned(q: Queue, anchor: nat, keys: seq<nat>, i: nat, n: nat) {
    && InKeyOrder(q, keys) && i <= |keys|
    && Covers(q, anchor + 1, anchor + 1 + n)
    && (forall j :: 0 <= j < i ==> keys[j] < anchor + 1 + n)
    && (forall j :: i <= j < |keys| && keys[j] > anchor ==> keys[j] >= anchor + 1 + n)
  }

  lemma NextScanned(q: Queue, anchor: nat, keys: seq<nat>, i: nat, n: nat)
    requires Scanned(q, anchor, keys, i, n) && i < |keys| && keys[i] == anchor + 1 + n
    ensures Scanned(q, anchor, keys, i + 1, n + 1) && keys[i] in q
  {
    assert keys[i] in keys;
  }

  lemma OldScanned(q: Queue, anchor: nat, keys: seq<nat>, i: nat, n: nat)
    requires Scanned(q, anchor, keys, i, n) && i < |keys| && keys[i] < anchor + 1 + n
    ensures Scanned(q, anchor, keys, i + 1, n) && keys[i] <= anchor
  {
  }

  /** A key that skips a number, or that follows a marker, rules out a gapless continuation. */
  lemma GapFound(q: Queue, anchor: nat, keys: seq<nat>, i: nat, n: nat)
    requires Scanned(q, anchor, keys, i, n) && i < |keys| && keys[i] > anchor
    requires keys[i] != anchor + 1 + n || (n > 0 && anchor + n in q && IsMarker(q[anchor + n]))
    ensures !Gapless(q, anchor)
  {
    assert keys[i] in keys && keys[i] in q;
    forall j | 0 <= j < |keys| && keys[i] != anchor + 1 + n
      ensures keys[j] != anchor + 1 + n
    {
      if i < j {
        assert keys[i] < keys[j];
      }
    }
    assert keys[i] != anchor + 1 + n ==> anchor + 1 + n !in keys;
  }

  lemma {:induction false} IntervalSize(s: set<nat>, lo: nat, hi: nat)
    requires lo <= hi && forall k :: k in s <==> lo <= k < hi
    ensures |s| == hi - lo
    decreases hi
  {
    if lo < hi {
      IntervalSize(s - {hi - 1}, lo, hi - 1);
    } else {
      assert s == {};
    }
  }

  lemma AllScanned(q: Queue, anchor: nat, keys: seq<nat>, n: nat)
    requires Scanned(q, anchor, keys, |keys|, n)
    ensures |Above(q, anchor)| == n && forall k :: k in q ==> k <= anchor + n
  {
    forall k | k in q
      ensures k <= anchor + n
    {
      assert k in keys;
    }
    IntervalSize(Above(q, anchor), anchor + 1, anchor + 1 + n);
  }

  lemma Ends(q: Queue, keys: seq<nat>)
    requires InKeyOrder(q, keys) && |q| > 0
    ensures |keys| == |q| && keys[0] in q && keys[|keys| - 1] in q
    ensures Contiguous(q) ==> keys[0] == 0 && keys[|keys| - 1] == |q| - 1
  {
    CountsUp(q, keys);
    assert keys[0] in keys && keys[|keys| - 1] in keys;
  }

  /** What has been gathered after `n` numbers past the anchor, at most the last one a marker. */
  ghost predicate Gathered(q: Queue, anchor: nat, n: nat, next: nat, events: seq<Update>) {
    && events == Gather(q, anchor + 1, anchor + 1 + n)
    && next == anchor + 1 + |events|
    && (|events| == n || (n > 0 && |events| == n - 1 && anchor + n in q && IsMarker(q[anchor + n])))
    && Plain(q, anchor + 1, anchor + n)
  }

  lemma NextGathered(q: Queue, anchor: nat, n: nat, next: nat, events: seq<Update>)
    requires Gathered(q, anchor, n, next, events) && next == anchor + 1 + n && next in q
    ensures if IsMarker(q[next]) then Gathered(q, anchor, n + 1, next, events)
            else Gathered(q, anchor, n + 1, next + 1, events + [q[next]])
  {
    if n > 0 && anchor + n in q {
      assert |Gather(q, anchor + 1, anchor + 1 + n)| == n;
      GatherLength(q, anchor + 1, anchor + n);
    }
  }

  lemma {:induction false} GatherLength(q: Queue, lo: nat, hi: nat)
    ensures |Gather(q, lo, hi)| <= if lo <= hi then hi - lo else 0
    decreases hi
  {
    if lo < hi {
      GatherLength(q, lo, hi - 1);
    }
  }

  class MarketDataConsumer {
    var nextExpIncSeqNum: nat
    var inRecovery: bool
    var snapshotQueued: Queue
    var incrementalQueued: Queue
    var incomingUpdates: seq<Update>

    constructor ()
      ensures State() == INIT_CONSUMER
    {
      nextExpIncSeqNum, inRecovery := 1, true;
      snapshotQueued, incrementalQueued, incomingUpdates := map[], map[], [];
    }

    ghost function State(): Consumer
      reads this
    {
      var next := if inRecovery then 0 else nextExpIncSeqNum;
      Consumer(next, inRecovery, snapshotQueued, incrementalQueued, incomingUpdates)
    }

    /** Scans the queued snapshot for gaps; `events` are its orders. */
    method ScanSnapshot() returns (complete: bool, events: seq<Update>)
      ensures complete <==> Contiguous(snapshotQueued)
      ensures complete ==> events == Gather(snapshotQueued, 0, |snapshotQueued|)
    {
      var keys := KeysInOrder(snapshotQueued);
      CountsUp(snapshotQueued, keys);
      var nextSnapshotSeq := 0;
      events := [];
      for i := 0 to |keys|
        invariant nextSnapshotSeq == i
        invariant forall j :: 0 <= j < i ==> keys[j] == j
        invariant events == Gather(snapshotQueued, 0, i)
      {
        if keys[i] != nextSnapshotSeq {
          return false, events;
        }
        assert keys[i] in keys;
        if !IsMarker(snapshotQueued[keys[i]]) {
          events := events + [snapshotQueued[keys[i]]];
        }
        nextSnapshotSeq := nextSnapshotSeq + 1;
      }
      complete := true;
    }

    /** Scans the queued incrementals for what continues a snapshot taken at `anchor`. */
    method ScanIncrementals(anchor: nat) returns (complete: bool, next: nat, events: seq<Update>)
      ensures complete <==> Gapless(incrementalQueued, anchor)
      ensures complete ==> events == Continuation(incrementalQueued, anchor) && next == anchor + 1 + |events|
    {
      var q := incrementalQueued;
      var keys := KeysInOrder(q);
      next, events := anchor + 1, [];
      ghost var n := 0;
      assert Scanned(q, anchor, keys, 0, n) && Gathered(q, anchor, n, next, events);
      hide Gather, Covers;
      for i := 0 to |keys|
        invariant Scanned(q, anchor, keys, i, n)
        invariant Gathered(q, anchor, n, next, events)
      {
        if keys[i] >= next {
          if keys[i] != next {
            GapFound(q, anchor, keys, i, n);
            return false, next, events;
          }
          NextScanned(q, anchor, keys, i, n);
          NextGathered(q, anchor, n, next, events);
          if !IsMarker(q[keys[i]]) {
            events := events + [q[keys[i]]];
            next := next + 1;
          }
          n := n + 1;
        } else {
          OldScanned(q, anchor, keys, i, n);
        }
      }
      AllScanned(q, anchor, keys, n);
      complete := true;
    }

    /** Leaves recovery exactly when the queued snapshot is whole and the queued incrementals
        continue it without a gap; passes on the snapshot's orders followed by those. */
    method CheckSnapshotSync()
      requires inRecovery
      modifies this
      ensures State() == Check(old(State()))
    {
      hide Contiguous, Gapless, Continuation, Gather;
      if |snapshotQueued| == 0 {
        return;
      }
      var q := snapshotQueued;
      var keys := KeysInOrder(q);
      Ends(q, keys);
      if q[keys[0]].kind != SNAPSHOT_START {
        snapshotQueued := map[];
        return;
      }
      var complete, finalEvents := ScanSnapshot();
      if !complete {
        snapshotQueued := map[];
        return;
      }
      var last := q[keys[|keys| - 1]];
      if last.kind != SNAPSHOT_END {
        return;
      }
      var next, more;
      complete, next, more := ScanIncrementals(last.oid);
      nextExpIncSeqNum := next;
      if !complete {
        snapshotQueued := map[];
        return;
      }
      incomingUpdates := incomingUpdates + finalEvents + more;
      snapshotQueued, incrementalQueued, inRecovery := map[], map[], false;
    }

    method QueueMessage(isSnapshot: bool, n: Numbered)
      requires inRecovery
      modifies this
      ensures State() == Check(Enqueued(old(State()), isSnapshot, n))
    {
      if isSnapshot {
        if n.seqNum in snapshotQueued {
          snapshotQueued := map[];
        }
        snapshotQueued := snapshotQueued[n.seqNum := n.update];
      } else {
        incrementalQueued := incrementalQueued[n.seqNum := n.update];
      }
      CheckSnapshotSync();
    }

    method ProcessMessage(isSnapshot: bool, n: Numbered)
      modifies this
      ensures State() == OnMessage(old(State()), isSnapshot, n)
    {
      var alreadyInRecovery := inRecovery;
      inRecovery := alreadyInRecovery || n.seqNum != nextExpIncSeqNum;
      if inRecovery {
        if !alreadyInRecovery {
          snapshotQueued, incrementalQueued := map[], map[];
        }
        QueueMessage(isSnapshot, n);
      } else if !isSnapshot {
        nextExpIncSeqNum := nextExpIncSeqNum + 1;
        incomingUpdates := incomingUpdates + [n.update];
      }
    }

    method RecvCallback(isSnapshot: bool, ns: seq<Numbered>)
      modifies this
      ensures State() == Receive(old(State()), Delivery(isSnapshot, ns))
    {
      if isSnapshot && !inRecovery {
        return;
      }
      for i := 0 to |ns|
        invariant State() == OnMessages(old(State()), isSnapshot, ns[..i])
      {
        ProcessMessage(isSnapshot, ns[i]);
        assert ns[..i + 1][..i] == ns[..i];
      }
      assert ns[..|ns|] == ns;
    }
  }
}
