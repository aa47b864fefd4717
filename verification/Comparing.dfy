/** The consumer with the comparison that the code leaves out: over a network that loses and repeats
    messages but keeps their order it is safe, whatever snapshots are mixed up, because it rejects those
    that are. */
module Comparing {
  import opened Common
  import opened Replica
  import opened Snapshot
  import opened Publishing
  import opened Recovery
  import opened Downstream
  import opened Anchors
  import opened Anchored

  /** `checkSnapshotSync` as it should be.
      Repair: market_data_consumer.cpp:160-202 never compares the anchors of the two markers; here a
      snapshot whose markers disagree is given up like one with a gap. */
  function CheckComparing(c: Consumer): Consumer {
    if WholeSnapshot(c.snaps) && c.snaps[0].oid != Anchor(c.snaps) then c.(snaps := map[]) else Check(c)
  }

  function OnMessageComparing(c: Consumer, isSnapshot: bool, n: Numbered): Consumer {
    if c.inRecovery || n.seqNum != c.nextExp then CheckComparing(Enqueued(Recovering(c), isSnapshot, n))
    else OnMessage(c, isSnapshot, n)
  }

  function OnMessagesComparing(c: Consumer, isSnapshot: bool, ns: seq<Numbered>): Consumer
    decreases |ns|
  {
    if ns == [] then c
    else OnMessageComparing(OnMessagesComparing(c, isSnapshot, ns[..|ns| - 1]), isSnapshot, ns[|ns| - 1])
  }

  function ReceiveComparing(c: Consumer, d: Delivery): Consumer {
    if d.isSnapshot && !c.inRecovery then c else OnMessagesComparing(c, d.isSnapshot, d.ns)
  }

  function ReceiveAllComparing(ds: seq<Delivery>): Consumer
    decreases |ds|
  {
    if ds == [] then INIT_CONSUMER else ReceiveComparing(ReceiveAllComparing(ds[..|ds| - 1]), ds[|ds| - 1])
  }

  // ----- message by message -----

  function ArriveComparing(s: Tagged, x: Arrival): Tagged {
    var c := OnMessageComparing(s.c, x.FromSnapshot?, x.n);
    Tagged(c, map k | k in Tags(s, x) && k in c.snaps :: Tags(s, x)[k],
           if x.FromSnapshot? then x.anchor else s.latest)
  }

  function ArriveAllComparing(xs: seq<Arrival>): Tagged
    decreases |xs|
  {
    if xs == [] then INIT_TAGGED else ArriveComparing(ArriveAllComparing(xs[..|xs| - 1]), xs[|xs| - 1])
  }

  /** Snapshot messages are genuine and arrive in the order in which snapshots were published. */
  ghost predicate ComparingInOrder(log: seq<Update>, xs: seq<Arrival>)
    decreases |xs|
  {
    xs == [] ||
    (ComparingInOrder(log, xs[..|xs| - 1]) && InOrder(log, ArriveAllComparing(xs[..|xs| - 1]), xs[|xs| - 1]))
  }

  /** Where the anchors agree the comparison changes nothing. */
  lemma Passes(s: Tagged, x: Arrival)
    requires AnchorsAgree(s, x)
    ensures ArriveComparing(s, x) == Arrive(s, x)
  {
    hide WholeSnapshot, Check;
  }

  /** Where they do not, the consumer stays in recovery with an empty snapshot queue. */
  lemma Rejects(s: Tagged, x: Arrival)
    requires !AnchorsAgree(s, x)
    ensures ArriveComparing(s, x).c == Enqueued(Recovering(s.c), x.FromSnapshot?, x.n).(snaps := map[])
    ensures ArriveComparing(s, x).c.inRecovery && ArriveComparing(s, x).tags == map[]
    ensures ArriveComparing(s, x).c.out == s.c.out
  {
    hide Check;
  }

  /** What holds of a comparing consumer throughout. */
  ghost predicate Sound(log: seq<Update>, s: Tagged) {
    WellTagged(log, s) && Safe(log, s.c) && Traced(log, s.c)
  }

  lemma RejectingKeepsSound(log: seq<Update>, s: Tagged, x: Arrival)
    requires Sound(log, s) && InOrder(log, s, x) && !AnchorsAgree(s, x)
    ensures Sound(log, ArriveComparing(s, x))
  {
    hide AnchorsAgree, OfSnapshot, SourcedFrom, ArriveComparing, OnMessage, ApplyAll, WholeSnapshot;
    Rejects(s, x);
    RejectingLatest(s, x);
    NoTags(log, ArriveComparing(s, x).latest);
  }

  lemma RejectingLatest(s: Tagged, x: Arrival)
    ensures ArriveComparing(s, x).latest == if x.FromSnapshot? then x.anchor else s.latest
  {
    hide OnMessageComparing;
  }

  lemma PassingKeepsSound(log: seq<Update>, s: Tagged, x: Arrival)
    requires LegalLog(log) && Sound(log, s) && InOrder(log, s, x) && AnchorsAgree(s, x)
    ensures Sound(log, ArriveComparing(s, x))
  {
    hide LegalLog, WellTagged, Safe, Traced, InOrder, AnchorsAgree, UnmixedAt, Genuine, OnMessage;
    Passes(s, x);
    AgreeingIsUnmixed(log, s, x);
    ArriveKeepsTags(log, s, x);
    MessageIsSafe(log, s.c, x.FromSnapshot?, x.n);
    MessageIsTraced(log, s.c, x.FromSnapshot?, x.n);
  }

  lemma StartsSound(log: seq<Update>)
    ensures Sound(log, INIT_TAGGED)
  {
  }

  /** A consumer that compares the anchors is safe, and everything it passes on has a source, over every
      run of a network that keeps order. */
  lemma {:induction false} ComparingIsSound(log: seq<Update>, xs: seq<Arrival>)
    requires LegalLog(log) && ComparingInOrder(log, xs)
    ensures Sound(log, ArriveAllComparing(xs))
    decreases |xs|
  {
    hide LegalLog, Sound, InOrder, AnchorsAgree, ArriveComparing;
    if xs == [] {
      StartsSound(log);
    } else {
      var s, x := ArriveAllComparing(xs[..|xs| - 1]), xs[|xs| - 1];
      ComparingIsSound(log, xs[..|xs| - 1]);
      if AnchorsAgree(s, x) {
        PassingKeepsSound(log, s, x);
      } else {
        RejectingKeepsSound(log, s, x);
      }
    }
  }

  // ----- read by read -----

  /** The messages that are looked at: a read of snapshot messages is dropped outside recovery. */
  function HeardComparing(bs: seq<Batch>): seq<Arrival>
    decreases |bs|
  {
    if bs == [] then []
    else
      var before, b := HeardComparing(bs[..|bs| - 1]), bs[|bs| - 1];
      if b.isSnapshot && !ArriveAllComparing(before).c.inRecovery then before else before + b.xs
  }

  lemma {:induction false} ArriveComparingOnwards(before: seq<Arrival>, isSnapshot: bool, xs: seq<Arrival>)
    requires forall i :: 0 <= i < |xs| ==> xs[i].FromSnapshot? == isSnapshot
    ensures ArriveAllComparing(before + xs).c == OnMessagesComparing(ArriveAllComparing(before).c, isSnapshot, Bare(xs))
    decreases |xs|
  {
    hide OnMessageComparing;
    if xs == [] {
      assert before + xs == before;
    } else {
      var n := |xs| - 1;
      ArriveComparingOnwards(before, isSnapshot, xs[..n]);
      assert (before + xs)[..|before + xs| - 1] == before + xs[..n] && Bare(xs)[..n] == Bare(xs[..n]);
    }
  }

  /** Reads and single messages lead to the same state. */
  lemma {:induction false} ComparingReads(bs: seq<Batch>)
    requires AllUniform(bs)
    ensures ReceiveAllComparing(Deliveries(bs)) == ArriveAllComparing(HeardComparing(bs)).c
    decreases |bs|
  {
    hide OnMessagesComparing;
    if bs != [] {
      var before, b := bs[..|bs| - 1], bs[|bs| - 1];
      assert Deliveries(bs)[..|bs| - 1] == Deliveries(before);
      ComparingReads(before);
      assert b.Uniform();
      ArriveComparingOnwards(HeardComparing(before), b.isSnapshot, b.xs);
    }
  }

  /** The same read by read: safe, traced, and everything passed on can be applied. */
  lemma ComparingIsSafe(log: seq<Update>, bs: seq<Batch>)
    requires LegalLog(log) && AllUniform(bs) && ComparingInOrder(log, HeardComparing(bs))
    ensures var c := ReceiveAllComparing(Deliveries(bs)); Safe(log, c) && Traced(log, c) && Usable(c)
  {
    hide LegalLog, Safe, Traced, Usable, ComparingInOrder, WellTagged;
    ComparingReads(bs);
    ComparingIsSound(log, HeardComparing(bs));
    TracedIsUsable(log, ReceiveAllComparing(Deliveries(bs)));
  }
}
