/** The consumer as written, over a network that keeps order, in runs in which the comparison that it
    leaves out would never have failed: what it passes on is safe and has a source, message by message
    and read by read. */
module Anchored {
  import opened Common
  import opened Snapshot
  import opened Publishing
  import opened Recovery
  import opened Downstream
  import opened Anchors

  lemma {:induction false} AnchoredIsTraced(log: seq<Update>, xs: seq<Arrival>)
    requires LegalLog(log) && InOrderRun(log, xs) && AnchoredRun(xs)
    ensures Traced(log, ArriveAll(xs).c)
    decreases |xs|
  {
    hide LegalLog, Safe, Traced, AnchorsAgree, InOrder, UnmixedAt, Genuine, OnMessage, WellTagged;
    if xs == [] {
      StartsTraced(log);
    } else {
      var before, x := xs[..|xs| - 1], xs[|xs| - 1];
      assert xs == before + [x];
      AnchoredIsTraced(log, before);
      AnchoredIsSafe(log, before);
      RunKeepsTags(log, before);
      AgreeingIsUnmixed(log, ArriveAll(before), x);
      MessageIsTraced(log, ArriveAll(before).c, x.FromSnapshot?, x.n);
    }
  }

  /** In such runs everything passed on can be applied. */
  lemma AnchoredIsUsable(log: seq<Update>, xs: seq<Arrival>)
    requires LegalLog(log) && InOrderRun(log, xs) && AnchoredRun(xs)
    ensures Usable(ArriveAll(xs).c)
  {
    hide LegalLog, InOrderRun, AnchoredRun, Traced, Usable;
    AnchoredIsTraced(log, xs);
    TracedIsUsable(log, ArriveAll(xs).c);
  }

  // ----- read by read -----

  /** One read, with the origin of each message. */
  datatype Batch = Batch(isSnapshot: bool, xs: seq<Arrival>)
  {
    /** All messages come from the stream the read is from. */
    ghost predicate Uniform() {
      forall i :: 0 <= i < |xs| ==> xs[i].FromSnapshot? == isSnapshot
    }

    function Untagged(): Delivery {
      Delivery(isSnapshot, Bare(xs))
    }
  }

  function Bare(xs: seq<Arrival>): (ns: seq<Numbered>)
    ensures |ns| == |xs|
    ensures forall i :: 0 <= i < |xs| ==> ns[i] == xs[i].n
  {
    seq(|xs|, i requires 0 <= i < |xs| => xs[i].n)
  }

  function Deliveries(bs: seq<Batch>): (ds: seq<Delivery>)
    ensures |ds| == |bs|
    ensures forall i :: 0 <= i < |bs| ==> ds[i] == bs[i].Untagged()
  {
    seq(|bs|, i requires 0 <= i < |bs| => bs[i].Untagged())
  }

  ghost predicate AllUniform(bs: seq<Batch>) {
    forall i :: 0 <= i < |bs| ==> bs[i].Uniform()
  }

  /** The messages that are looked at: a read of snapshot messages is dropped outside recovery. */
  function Heard(bs: seq<Batch>): seq<Arrival>
    decreases |bs|
  {
    if bs == [] then []
    else
      var before, b := Heard(bs[..|bs| - 1]), bs[|bs| - 1];
      if b.isSnapshot && !ArriveAll(before).c.inRecovery then before else before + b.xs
  }

  lemma {:induction false} ArriveOnwards(before: seq<Arrival>, isSnapshot: bool, xs: seq<Arrival>)
    requires forall i :: 0 <= i < |xs| ==> xs[i].FromSnapshot? == isSnapshot
    ensures ArriveAll(before + xs).c == OnMessages(ArriveAll(before).c, isSnapshot, Bare(xs))
    decreases |xs|
  {
    hide OnMessage;
    if xs == [] {
      assert before + xs == before;
    } else {
      var n := |xs| - 1;
      ArriveOnwards(before, isSnapshot, xs[..n]);
      assert (before + xs)[..|before + xs| - 1] == before + xs[..n] && Bare(xs)[..n] == Bare(xs[..n]);
    }
  }

  /** Reads and single messages lead to the same state. */
  lemma {:induction false} ReadsAreMessages(bs: seq<Batch>)
    requires AllUniform(bs)
    ensures ReceiveAll(Deliveries(bs)) == ArriveAll(Heard(bs)).c
    decreases |bs|
  {
    hide OnMessages;
    if bs != [] {
      var before, b := bs[..|bs| - 1], bs[|bs| - 1];
      assert Deliveries(bs)[..|bs| - 1] == Deliveries(before);
      ReadsAreMessages(before);
      assert b.Uniform();
      ArriveOnwards(Heard(before), b.isSnapshot, b.xs);
    }
  }

  lemma AnchoredDeliveries(log: seq<Update>, bs: seq<Batch>)
    requires LegalLog(log) && AllUniform(bs) && InOrderRun(log, Heard(bs)) && AnchoredRun(Heard(bs))
    ensures Safe(log, ReceiveAll(Deliveries(bs))) && Traced(log, ReceiveAll(Deliveries(bs)))
  {
    hide LegalLog, Safe, Traced, InOrderRun, AnchoredRun;
    ReadsAreMessages(bs);
    AnchoredIsSafe(log, Heard(bs));
    AnchoredIsTraced(log, Heard(bs));
  }
}
