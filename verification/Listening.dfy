/** What a consumer has kept when a recovery ends: everything it was sent since the recovery began. And what
    it does when nothing goes wrong. All of it for the consumer as written and for the one that compares the
    anchors. */
module Listening {
  import opened Common
  import opened Replica
  import opened Snapshot
  import opened Publishing
  import opened Recovery
  import opened Anchors
  import opened Comparing
  import opened Progress
  import MarketData

  /** A message, and the channel it came on. */
  datatype Message = Message(isSnapshot: bool, n: Numbered)

  function OnEither(comparing: bool, c: Consumer, m: Message): Consumer {
    if comparing then OnMessageComparing(c, m.isSnapshot, m.n) else OnMessage(c, m.isSnapshot, m.n)
  }

  /** The consumer after these messages. */
  function AfterMessages(comparing: bool, xs: seq<Message>): Consumer
    decreases |xs|
  {
    if xs == [] then INIT_CONSUMER else OnEither(comparing, AfterMessages(comparing, xs[..|xs| - 1]), xs[|xs| - 1])
  }

  function ReadOne(comparing: bool, c: Consumer, d: Delivery): Consumer {
    if comparing then ReceiveComparing(c, d) else Receive(c, d)
  }

  /** The consumer after these reads. */
  function AfterReads(comparing: bool, ds: seq<Delivery>): Consumer {
    if comparing then ReceiveAllComparing(ds) else ReceiveAll(ds)
  }

  function AsMessages(isSnapshot: bool, ns: seq<Numbered>): (xs: seq<Message>)
    ensures |xs| == |ns| && forall i :: 0 <= i < |ns| ==> xs[i] == Message(isSnapshot, ns[i])
  {
    seq(|ns|, i requires 0 <= i < |ns| => Message(isSnapshot, ns[i]))
  }

  /** The messages of these reads that are looked at: snapshots are not read outside recovery. */
  function LookedAt(comparing: bool, ds: seq<Delivery>): seq<Message>
    decreases |ds|
  {
    if ds == [] then []
    else
      var before, d := LookedAt(comparing, ds[..|ds| - 1]), ds[|ds| - 1];
      if d.isSnapshot && !AfterMessages(comparing, before).inRecovery then before
      else before + AsMessages(d.isSnapshot, d.ns)
  }

  lemma {:induction false} AfterMoreMessages(comparing: bool, xs: seq<Message>, isSnapshot: bool, ns: seq<Numbered>)
    ensures AfterMessages(comparing, xs + AsMessages(isSnapshot, ns))
         == if comparing then OnMessagesComparing(AfterMessages(comparing, xs), isSnapshot, ns)
            else OnMessages(AfterMessages(comparing, xs), isSnapshot, ns)
    decreases |ns|
  {
    hide OnMessage, OnMessageComparing;
    if ns == [] {
      assert xs + AsMessages(isSnapshot, ns) == xs;
    } else {
      var n := |ns| - 1;
      AfterMoreMessages(comparing, xs, isSnapshot, ns[..n]);
      var all := xs + AsMessages(isSnapshot, ns);
      assert all[..|all| - 1] == xs + AsMessages(isSnapshot, ns[..n]);
    }
  }

  /** Reads and single messages lead to the same state. */
  lemma {:induction false} ReadsAreMessages(comparing: bool, ds: seq<Delivery>)
    ensures AfterReads(comparing, ds) == AfterMessages(comparing, LookedAt(comparing, ds))
    decreases |ds|
  {
    hide OnMessages, OnMessagesComparing;
    if ds != [] {
      ReadsAreMessages(comparing, ds[..|ds| - 1]);
      AfterMoreMessages(comparing, LookedAt(comparing, ds[..|ds| - 1]), ds[|ds| - 1].isSnapshot, ds[|ds| - 1].ns);
    }
  }

  // ----- since the recovery began -----

  /** The consumer is recovering, and has been from message `k` on but not before: either it has been from the
      start, or message `k` revealed a gap. */
  ghost predicate RecoveringSince(comparing: bool, xs: seq<Message>, k: nat) {
    && k <= |xs| && (k == 0 || (k < |xs| && !AfterMessages(comparing, xs[..k]).inRecovery))
    && forall j :: k < j <= |xs| ==> AfterMessages(comparing, xs[..j]).inRecovery
  }

  /** An incremental of this number came since message `k`. */
  ghost predicate Came(xs: seq<Message>, k: nat, num: nat) {
    exists i :: k <= i < |xs| && !xs[i].isSnapshot && xs[i].n.seqNum == num
  }

  /** A check that does not end the recovery leaves the incrementals alone, and the consumer ready. */
  lemma CheckLeaves(c: Consumer)
    requires c.inRecovery
    ensures Check(c).inRecovery ==> Check(c).incs == c.incs && Ready(Check(c))
    ensures CheckComparing(c).inRecovery ==> CheckComparing(c).incs == c.incs && Ready(CheckComparing(c))
  {
    hide Gapless, Continuation, Gather, WholeSnapshot;
  }

  /** What one message does to a consumer that is recovering afterwards. */
  lemma OneMessage(comparing: bool, c: Consumer, m: Message)
    requires OnEither(comparing, c, m).inRecovery
    ensures var before, after := if c.inRecovery then c.incs else map[], OnEither(comparing, c, m).incs;
            after == if m.isSnapshot then before else before[m.n.seqNum := m.n.update]
    ensures !c.inRecovery ==> m.n.seqNum != c.nextExp
    ensures (c.inRecovery ==> Ready(c)) ==> Ready(OnEither(comparing, c, m))
  {
    hide Check, CheckComparing;
    CheckLeaves(Enqueued(Recovering(c), m.isSnapshot, m.n));
  }

  ghost predicate LastOfItsNumber(xs: seq<Message>, i: nat)
    requires i < |xs|
  {
    !xs[i].isSnapshot && !Came(xs, i + 1, xs[i].n.seqNum)
  }

  /** The queue holds exactly the incrementals that came since message `k`, each under its number; of two with
      one number the later. */
  ghost predicate Kept(q: Queue, xs: seq<Message>, k: nat) {
    && (forall num: nat :: num in q <==> Came(xs, k, num))
    && (forall i :: k <= i < |xs| && LastOfItsNumber(xs, i) ==>
          xs[i].n.seqNum in q && q[xs[i].n.seqNum] == xs[i].n.update)
  }

  lemma CameOneMore(xs: seq<Message>, m: Message, k: nat, num: nat)
    requires k <= |xs|
    ensures Came(xs + [m], k, num) <==> Came(xs, k, num) || (!m.isSnapshot && m.n.seqNum == num)
  {
    var all := xs + [m];
    if Came(xs, k, num) {
      var i :| k <= i < |xs| && !xs[i].isSnapshot && xs[i].n.seqNum == num;
      assert all[i] == xs[i];
    }
    assert all[|xs|] == m;
  }

  lemma KeptOneMore(q: Queue, xs: seq<Message>, m: Message, k: nat)
    requires Kept(q, xs, k) && k <= |xs|
    ensures Kept(if m.isSnapshot then q else q[m.n.seqNum := m.n.update], xs + [m], k)
  {
    hide Came;
    var q', all := if m.isSnapshot then q else q[m.n.seqNum := m.n.update], xs + [m];
    forall num: nat
      ensures num in q' <==> Came(all, k, num)
    {
      CameOneMore(xs, m, k, num);
    }
    forall i | k <= i < |all| && LastOfItsNumber(all, i)
      ensures all[i].n.seqNum in q' && q'[all[i].n.seqNum] == all[i].n.update
    {
      if i < |xs| {
        CameOneMore(xs, m, i + 1, xs[i].n.seqNum);
        assert LastOfItsNumber(xs, i);
      }
    }
  }

  lemma NothingCame(xs: seq<Message>)
    ensures Kept(map[], xs, |xs|)
  {
  }

  lemma LastMessage(comparing: bool, xs: seq<Message>)
    requires xs != []
    ensures AfterMessages(comparing, xs) == OnEither(comparing, AfterMessages(comparing, xs[..|xs| - 1]), xs[|xs| - 1])
  {
    hide OnEither;
  }

  /** How far back a recovery goes, seen one message earlier. */
  lemma SinceBefore(comparing: bool, xs: seq<Message>, k: nat)
    requires xs != [] && RecoveringSince(comparing, xs, k)
    ensures AfterMessages(comparing, xs).inRecovery
    ensures var n := |xs| - 1;
            if k < n then RecoveringSince(comparing, xs[..n], k)
            else k == n && (n == 0 || !AfterMessages(comparing, xs[..n]).inRecovery)
  {
    hide AfterMessages;
    var n := |xs| - 1;
    assert xs[..|xs|] == xs;
    assert forall j :: 0 <= j <= n ==> xs[..n][..j] == xs[..j];
  }

  lemma SinceStart(comparing: bool, k: nat)
    requires RecoveringSince(comparing, [], k)
    ensures k == 0
  {
  }

  lemma StartsReady(comparing: bool)
    ensures AfterMessages(comparing, []) == INIT_CONSUMER && Ready(INIT_CONSUMER) && Kept(map[], [], 0)
  {
  }

  /** While it recovers a consumer keeps exactly the incrementals that came since the recovery began. */
  lemma {:induction false} KeepsWhatCame(comparing: bool, xs: seq<Message>, k: nat)
    requires RecoveringSince(comparing, xs, k)
    ensures var c := AfterMessages(comparing, xs); c.inRecovery && Kept(c.incs, xs, k) && Ready(c)
    decreases |xs|
  {
    hide AfterMessages, OnEither, Ready, Kept, RecoveringSince;
    StartsReady(comparing);
    if xs == [] {
      SinceStart(comparing, k);
    } else {
      var n := |xs| - 1;
      var before := xs[..n];
      SinceBefore(comparing, xs, k);
      LastMessage(comparing, xs);
      OneMessage(comparing, AfterMessages(comparing, before), xs[n]);
      assert xs == before + [xs[n]];
      if k < n {
        KeepsWhatCame(comparing, before, k);
        KeptOneMore(AfterMessages(comparing, before).incs, before, xs[n], k);
      } else {
        NothingCame(before);
        KeptOneMore(map[], before, xs[n], k);
      }
    }
  }

  /** A recovery that did not begin at the start began with a message that had another number than the next one
      expected. */
  lemma GapBegins(comparing: bool, xs: seq<Message>, k: nat)
    requires RecoveringSince(comparing, xs, k) && k > 0
    ensures k < |xs| && xs[k].n.seqNum != AfterMessages(comparing, xs[..k]).nextExp
  {
    hide AfterMessages, OnEither;
    assert xs[..k + 1][..k] == xs[..k] && xs[..k + 1][k] == xs[k];
    LastMessage(comparing, xs[..k + 1]);
    OneMessage(comparing, AfterMessages(comparing, xs[..k]), xs[k]);
  }

  /** Every recovery began somewhere. */
  lemma {:induction false} BeganSomewhere(comparing: bool, xs: seq<Message>) returns (k: nat)
    requires AfterMessages(comparing, xs).inRecovery
    ensures RecoveringSince(comparing, xs, k)
    decreases |xs|
  {
    hide OnEither;
    if xs == [] {
      k := 0;
    } else {
      var n := |xs| - 1;
      var before := xs[..n];
      assert forall j :: 0 <= j <= n ==> before[..j] == xs[..j];
      assert xs[..|xs|] == xs;
      if AfterMessages(comparing, before).inRecovery {
        k := BeganSomewhere(comparing, before);
      } else {
        k := n;
      }
    }
  }

  // ----- recovery completes -----

  /** Of the numbers above the anchor, those up to `last` came since message `k`, and no others. */
  ghost predicate NoGap(xs: seq<Message>, k: nat, anchor: nat, last: nat) {
    anchor <= last && forall num: nat :: num > anchor ==> (Came(xs, k, num) <==> num <= last)
  }

  /** Every incremental that came since message `k` is the log's of its number. */
  ghost predicate FromLog(log: seq<Update>, xs: seq<Message>, k: nat) {
    forall i :: k <= i < |xs| && !xs[i].isSnapshot ==> Genuine(log, false, xs[i].n)
  }

  lemma SameNumbers(q: Queue, xs: seq<Message>, k: nat)
    requires Kept(q, xs, k)
    ensures forall num: nat :: num in q <==> Came(xs, k, num)
  {
  }

  lemma {:induction false} LastThatCame(xs: seq<Message>, k: nat, num: nat) returns (i: nat)
    requires Came(xs, k, num)
    ensures k <= i < |xs| && LastOfItsNumber(xs, i) && xs[i].n.seqNum == num
    decreases |xs| - k
  {
    i :| k <= i < |xs| && !xs[i].isSnapshot && xs[i].n.seqNum == num;
    if Came(xs, i + 1, num) {
      i := LastThatCame(xs, i + 1, num);
    }
  }

  lemma KeptAt(log: seq<Update>, q: Queue, xs: seq<Message>, k: nat, i: nat)
    requires Kept(q, xs, k) && FromLog(log, xs, k) && k <= i < |xs| && LastOfItsNumber(xs, i)
    ensures var num := xs[i].n.seqNum; num in q && 1 <= num <= |log| && q[num] == log[num - 1]
  {
    hide Came;
  }

  lemma KeptIsAuthentic(log: seq<Update>, q: Queue, xs: seq<Message>, k: nat)
    requires Kept(q, xs, k) && FromLog(log, xs, k)
    ensures Authentic(log, q)
  {
    hide Kept, Came, FromLog, LastOfItsNumber;
    forall num | num in q
      ensures 1 <= num <= |log| && q[num] == log[num - 1]
    {
      SameNumbers(q, xs, k);
      var i := LastThatCame(xs, k, num);
      KeptAt(log, q, xs, k, i);
    }
  }

  /** Of the numbers above the anchor the queue holds those up to `last`, and no others. */
  ghost predicate UpTo(q: Queue, anchor: nat, last: nat) {
    anchor <= last && forall num: nat :: num > anchor ==> (num in q <==> num <= last)
  }

  lemma NoMarkers(log: seq<Update>, q: Queue)
    requires LegalLog(log) && Authentic(log, q)
    ensures forall num :: num in q ==> !IsMarker(q[num])
  {
    hide LegalLog;
    LegalLogKinds(log);
  }

  lemma UpToIsGapless(log: seq<Update>, q: Queue, anchor: nat, last: nat)
    requires LegalLog(log) && anchor <= |log| && Authentic(log, q) && UpTo(q, anchor, last)
    ensures Gapless(q, anchor) && last <= |log| && Continuation(q, anchor) == log[anchor..last]
  {
    hide LegalLog;
    MarketData.IntervalSize(Above(q, anchor), anchor + 1, last + 1);
    NoMarkers(log, q);
    GatherLog(log, q, anchor + 1, last + 1);
  }

  lemma GaplessIsUpTo(q: Queue, anchor: nat)
    requires Gapless(q, anchor)
    ensures UpTo(q, anchor, anchor + |Above(q, anchor)|)
  {
  }

  /** What a whole snapshot does to a consumer that has kept what came since message `k`. */
  lemma SnapshotEnds(log: seq<Update>, c: Consumer, xs: seq<Message>, k: nat, anchor: nat)
    requires LegalLog(log) && anchor <= |log| && Ready(c) && Kept(c.incs, xs, k) && FromLog(log, xs, k)
    ensures var c' := OnMessages(c, true, SnapshotMessages(log, anchor));
            && OnMessagesComparing(c, true, SnapshotMessages(log, anchor)) == c'
            && (!c'.inRecovery <==> exists last: nat :: NoGap(xs, k, anchor, last))
            && forall last: nat :: NoGap(xs, k, anchor, last) ==>
                 && last <= |log| && c'.nextExp == last + 1
                 && c'.out == c.out + Body(Ledgers(log[..anchor]), ME_MAX_TICKERS) + log[anchor..last]
  {
    hide LegalLog, Kept, FromLog, SnapshotMessages, OnMessages, OnMessagesComparing, Gapless, Body, Came, Ready;
    hide Continuation, Ledgers;
    KeptIsAuthentic(log, c.incs, xs, k);
    RecoveryCompletes(log, c, anchor);
    SameNumbers(c.incs, xs, k);
    if Gapless(c.incs, anchor) {
      GaplessIsUpTo(c.incs, anchor);
      assert NoGap(xs, k, anchor, anchor + |Above(c.incs, anchor)|);
    }
    forall last: nat | NoGap(xs, k, anchor, last)
      ensures Gapless(c.incs, anchor) && last <= |log| && Continuation(c.incs, anchor) == log[anchor..last]
    {
      UpToIsGapless(log, c.incs, anchor, last);
    }
  }

  lemma AnchorBefore(xs: seq<Message>, k: nat, anchor: nat, last: nat)
    requires NoGap(xs, k, anchor, last)
    ensures anchor <= last
  {
  }

  /** Recovery completes. A recovering consumer that is sent a whole snapshot ends its recovery if and only if
      the incrementals that came since the recovery began, of those above the anchor, have no gap from it on:
      they are numbered up to some last one. It then has passed on the snapshot's orders and those updates,
      expects the number behind the last, and holds every book of the log up to it. */
  lemma RunRecovers(comparing: bool, log: seq<Update>, ds: seq<Delivery>, k: nat, anchor: nat)
    requires LegalLog(log) && anchor <= |log|
    requires RecoveringSince(comparing, LookedAt(comparing, ds), k) && FromLog(log, LookedAt(comparing, ds), k)
    ensures var xs, c := LookedAt(comparing, ds), AfterReads(comparing, ds);
            var c' := ReadOne(comparing, c, Delivery(true, SnapshotMessages(log, anchor)));
            && (!c'.inRecovery <==> exists last: nat :: NoGap(xs, k, anchor, last))
            && forall last: nat :: NoGap(xs, k, anchor, last) ==>
                 && last <= |log| && c'.nextExp == last + 1
                 && c'.out == c.out + Body(Ledgers(log[..anchor]), ME_MAX_TICKERS) + log[anchor..last]
                 && forall t: nat :: t < ME_MAX_TICKERS ==> Replay(t, c'.out) == Replay(t, log[..last])
  {
    hide LegalLog, Kept, FromLog, SnapshotMessages, OnMessages, OnMessagesComparing, Body, ApplyAll, NoGap;
    hide RecoveringSince, Ready, Ledgers, AfterMessages;
    var xs, c := LookedAt(comparing, ds), AfterReads(comparing, ds);
    ReadsAreMessages(comparing, ds);
    KeepsWhatCame(comparing, xs, k);
    SnapshotEnds(log, c, xs, k, anchor);
    forall last: nat, t: nat | NoGap(xs, k, anchor, last) && t < ME_MAX_TICKERS
      ensures anchor <= last <= |log|
           && Replay(t, c.out + Body(Ledgers(log[..anchor]), ME_MAX_TICKERS) + log[anchor..last])
              == Replay(t, log[..last])
    {
      AnchorBefore(xs, k, anchor, last);
      SpliceRebuilds(log, c.out, anchor, log[anchor..last], t);
    }
  }

  // ----- when nothing goes wrong -----

  /** The incrementals of these reads. */
  function Increments(ds: seq<Delivery>): seq<Numbered>
    decreases |ds|
  {
    if ds == [] then []
    else Increments(ds[..|ds| - 1]) + (if ds[|ds| - 1].isSnapshot then [] else ds[|ds| - 1].ns)
  }

  function Onwards(comparing: bool, c: Consumer, ds: seq<Delivery>): Consumer
    decreases |ds|
  {
    if ds == [] then c else ReadOne(comparing, Onwards(comparing, c, ds[..|ds| - 1]), ds[|ds| - 1])
  }

  lemma {:induction false} ExpectedPass(comparing: bool, c: Consumer, us: seq<Update>)
    requires !c.inRecovery
    ensures (if comparing then OnMessagesComparing(c, false, NumberFrom(c.nextExp, us))
             else OnMessages(c, false, NumberFrom(c.nextExp, us)))
         == c.(nextExp := c.nextExp + |us|, out := c.out + us)
    decreases |us|
  {
    hide Check, CheckComparing;
    if us == [] {
      assert c.out + us == c.out;
    } else {
      var n := |us| - 1;
      ExpectedPass(comparing, c, us[..n]);
      assert NumberFrom(c.nextExp, us)[..n] == NumberFrom(c.nextExp, us[..n]);
      assert c.out + us == c.out + us[..n] + [us[n]];
    }
  }

  lemma SplitNumbers(first: nat, us: seq<Update>, a: seq<Numbered>, b: seq<Numbered>)
    requires a + b == NumberFrom(first, us)
    ensures |a| <= |us| && a == NumberFrom(first, us[..|a|]) && b == NumberFrom(first + |a|, us[|a|..])
  {
    assert a == NumberFrom(first, us)[..|a|] && b == NumberFrom(first, us)[|a|..];
  }

  /** One read outside recovery. */
  lemma ReadInStep(comparing: bool, c: Consumer, d: Delivery, us: seq<Update>)
    requires !c.inRecovery && (if d.isSnapshot then us == [] else d.ns == NumberFrom(c.nextExp, us))
    ensures ReadOne(comparing, c, d) == c.(nextExp := c.nextExp + |us|, out := c.out + us)
  {
    hide OnMessages, OnMessagesComparing;
    if d.isSnapshot {
      assert c.out + us == c.out;
    } else {
      ExpectedPass(comparing, c, us);
    }
  }

  /** A consumer that is not recovering and is sent the updates it expects, one after the other, passes on
      exactly these and goes on so, whatever snapshots are sent in between. */
  lemma {:induction false} StaysInStep(comparing: bool, c: Consumer, ds: seq<Delivery>, us: seq<Update>)
    requires !c.inRecovery && Increments(ds) == NumberFrom(c.nextExp, us)
    ensures Onwards(comparing, c, ds) == c.(nextExp := c.nextExp + |us|, out := c.out + us)
    decreases |ds|
  {
    hide ReadOne, NumberFrom;
    if ds == [] {
      assert us == [] && c.out + us == c.out;
    } else {
      var before, d := ds[..|ds| - 1], ds[|ds| - 1];
      var a, b := Increments(before), if d.isSnapshot then [] else d.ns;
      SplitNumbers(c.nextExp, us, a, b);
      StaysInStep(comparing, c, before, us[..|a|]);
      ReadInStep(comparing, Onwards(comparing, c, before), d, us[|a|..]);
      assert us == us[..|a|] + us[|a|..] && c.out + us == c.out + us[..|a|] + us[|a|..];
    }
  }
}
