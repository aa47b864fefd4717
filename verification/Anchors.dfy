/** Recovery is only as good as the snapshot it splices. The consumer never compares the anchor in
    the start marker with the one in the end marker, so messages of two snapshots can pass for one.
    Over a channel that loses messages but does not reorder them, that missing comparison is exactly
    what decides whether a whole-looking snapshot comes from one publication. */
module Anchors {
  import opened Common
  import opened Replica
  import opened UpdateStream
  import opened Snapshot
  import opened Publishing
  import opened Recovery

  /** A message as it reaches the consumer; for a snapshot message, with the anchor of the snapshot
      it was published in. */
  datatype Arrival = FromLog(n: Numbered) | FromSnapshot(anchor: nat, n: Numbered)

  /** The consumer, the anchors of its queued snapshot messages, and the latest anchor heard. */
  datatype Tagged = Tagged(c: Consumer, tags: map<nat, nat>, latest: nat)

  const INIT_TAGGED := Tagged(INIT_CONSUMER, map[], 0)

  function Tags(s: Tagged, x: Arrival): map<nat, nat> {
    var tags := if s.c.inRecovery then s.tags else map[];
    match x
    case FromLog(_) => tags
    case FromSnapshot(anchor, n) => (if n.seqNum in tags then map[] else tags)[n.seqNum := anchor]
  }

  function Arrive(s: Tagged, x: Arrival): Tagged {
    var c := OnMessage(s.c, x.FromSnapshot?, x.n);
    Tagged(c, map k | k in Tags(s, x) && k in c.snaps :: Tags(s, x)[k],
           if x.FromSnapshot? then x.anchor else s.latest)
  }

  function ArriveAll(xs: seq<Arrival>): Tagged
    decreases |xs|
  {
    if xs == [] then INIT_TAGGED else Arrive(ArriveAll(xs[..|xs| - 1]), xs[|xs| - 1])
  }

  /** Snapshot messages are genuine and arrive in the order in which snapshots were published. */
  ghost predicate InOrder(log: seq<Update>, s: Tagged, x: Arrival) {
    match x
    case FromLog(n) => Genuine(log, false, n)
    case FromSnapshot(anchor, n) => s.latest <= anchor && OfSnapshot(log, anchor, n.seqNum, n.update)
  }

  ghost predicate InOrderRun(log: seq<Update>, xs: seq<Arrival>)
    decreases |xs|
  {
    xs == [] || (InOrderRun(log, xs[..|xs| - 1]) && InOrder(log, ArriveAll(xs[..|xs| - 1]), xs[|xs| - 1]))
  }

  /** Tags describe the queue and rise with the message numbers. */
  ghost predicate TagsRise(log: seq<Update>, q: Queue, tags: map<nat, nat>, latest: nat) {
    && tags.Keys == q.Keys
    && (forall k :: k in q ==> tags[k] <= latest && OfSnapshot(log, tags[k], k, q[k]))
    && (forall i, j :: i in q && j in q && i < j ==> tags[i] <= tags[j])
  }

  ghost predicate WellTagged(log: seq<Update>, s: Tagged) {
    && TagsRise(log, s.c.snaps, s.tags, s.latest)
    && (s.c.snaps == map[] || (s.c.inRecovery && Unbroken(s.c.snaps)))
  }

  /** The queue that `x` completes, before it is checked. */
  function Tried(s: Tagged, x: Arrival): Queue {
    Enqueued(Recovering(s.c), x.FromSnapshot?, x.n).snaps
  }

  lemma ArriveTried(s: Tagged, x: Arrival)
    ensures Arrive(s, x).c.snaps == map[]
         || (Arrive(s, x).c.snaps == Tried(s, x) && Arrive(s, x).c.inRecovery && Unbroken(Tried(s, x)))
         || (Arrive(s, x).c.snaps == s.c.snaps && !s.c.inRecovery && !Arrive(s, x).c.inRecovery)
  {
  }

  lemma SizeAfterInsert(q: Queue, k: nat, u: Update)
    requires k !in q
    ensures |q[k := u]| == |q| + 1
  {
    assert q[k := u].Keys == q.Keys + {k};
  }

  lemma AppendRises(log: seq<Update>, q: Queue, tags: map<nat, nat>, latest: nat, anchor: nat, k: nat, u: Update)
    requires TagsRise(log, q, tags, latest) && latest <= anchor && OfSnapshot(log, anchor, k, u)
    requires forall i :: i in q ==> i < k
    ensures TagsRise(log, q[k := u], tags[k := anchor], anchor)
  {
    var q', tags' := q[k := u], tags[k := anchor];
    forall i, j | i in q' && j in q' && i < j
      ensures tags'[i] <= tags'[j]
    {
      assert i in q;
    }
  }

  /** A queue that has no gap before or after an insertion grew at its end. */
  lemma GrewAtEnd(q: Queue, k: nat, u: Update)
    requires k !in q && Contiguous(q) && Contiguous(q[k := u])
    ensures forall i :: i in q ==> i < k
  {
    SizeAfterInsert(q, k, u);
    assert k in q[k := u];
  }

  lemma TagKeys(log: seq<Update>, q: Queue, tags: map<nat, nat>, latest: nat)
    requires TagsRise(log, q, tags, latest)
    ensures forall k :: k in q <==> k in tags
    ensures q == map[] ==> tags == map[] && Contiguous(q)
  {
    assert forall k :: k in q.Keys <==> k in tags.Keys;
  }

  lemma NoTags(log: seq<Update>, latest: nat)
    ensures TagsRise(log, map[], map[], latest) && Contiguous(map[])
  {
  }

  /** A queue that stays unbroken grew at its end, so its newest message carries the latest anchor. */
  lemma TriedRises(log: seq<Update>, s: Tagged, x: Arrival)
    requires WellTagged(log, s) && InOrder(log, s, x) && Unbroken(Tried(s, x))
    ensures TagsRise(log, Tried(s, x), Tags(s, x), Arrive(s, x).latest)
  {
    hide TagsRise, OfSnapshot, Contiguous, Genuine, OnMessage;
    TagKeys(log, s.c.snaps, s.tags, s.latest);
    NoTags(log, s.latest);
    match x
    case FromLog(_) =>
    case FromSnapshot(anchor, n) =>
      var q0 := if s.c.inRecovery && n.seqNum !in s.c.snaps then s.c.snaps else map[];
      var tags0 := if s.c.inRecovery && n.seqNum !in s.tags then s.tags else map[];
      assert TagsRise(log, q0, tags0, s.latest);
      GrewAtEnd(q0, n.seqNum, n.update);
      AppendRises(log, q0, tags0, s.latest, anchor, n.seqNum, n.update);
  }

  lemma ArriveKeepsTags(log: seq<Update>, s: Tagged, x: Arrival)
    requires WellTagged(log, s) && InOrder(log, s, x)
    ensures WellTagged(log, Arrive(s, x))
  {
    var s' := Arrive(s, x);
    ArriveTried(s, x);
    if s'.c.snaps == map[] {
      assert s'.tags == map[];
    } else if s'.c.inRecovery {
      TriedRises(log, s, x);
      TagsKept(s, x);
    }
  }

  lemma TagsKept(s: Tagged, x: Arrival)
    requires Arrive(s, x).c.snaps.Keys == Tags(s, x).Keys
    ensures Arrive(s, x).tags == Tags(s, x)
  {
  }

  lemma {:induction false} RunKeepsTags(log: seq<Update>, xs: seq<Arrival>)
    requires InOrderRun(log, xs)
    ensures WellTagged(log, ArriveAll(xs))
    decreases |xs|
  {
    if xs != [] {
      RunKeepsTags(log, xs[..|xs| - 1]);
      ArriveKeepsTags(log, ArriveAll(xs[..|xs| - 1]), xs[|xs| - 1]);
    }
  }

  /** A marker carries the anchor of the snapshot it belongs to. */
  lemma MarkerNamesAnchor(log: seq<Update>, anchor: nat, k: nat, u: Update)
    requires LegalLog(log) && OfSnapshot(log, anchor, k, u) && (k == 0 || IsMarker(u))
    ensures u.oid == anchor
  {
    LegalLogPrefix(log, anchor);
    SnapshotShape(log[..anchor]);
    var body := Body(Ledgers(log[..anchor]), ME_MAX_TICKERS);
    forall i | 0 < i <= |body|
      ensures !IsMarker(SnapshotAfter(log[..anchor])[i])
    {
      assert SnapshotAfter(log[..anchor])[i] == body[i - 1];
    }
  }

  /** Comparing the two anchors decides. In any run over an in-order lossy channel, when the queued
      snapshot looks whole it comes from one publication if and only if its start and end markers
      name the same anchor. */
  lemma AnchorsDecide(log: seq<Update>, xs: seq<Arrival>, x: Arrival)
    requires LegalLog(log) && InOrderRun(log, xs + [x])
    requires WholeSnapshot(Tried(ArriveAll(xs), x))
    ensures OneSource(log, Tried(ArriveAll(xs), x))
       <==> Tried(ArriveAll(xs), x)[0].oid == Anchor(Tried(ArriveAll(xs), x))
  {
    assert (xs + [x])[..|xs + [x]| - 1] == xs;
    var s := ArriveAll(xs);
    RunKeepsTags(log, xs);
    TriedRises(log, s, x);
    TagsDecide(log, Tried(s, x), Tags(s, x), Arrive(s, x).latest);
  }

  lemma TagsDecide(log: seq<Update>, q: Queue, tags: map<nat, nat>, latest: nat)
    requires LegalLog(log) && TagsRise(log, q, tags, latest) && WholeSnapshot(q)
    ensures OneSource(log, q) <==> q[0].oid == Anchor(q)
  {
    hide LegalLog, OfSnapshot;
    var last := |q| - 1;
    assert 0 in q && last in q && IsMarker(q[last]);
    MarkerNamesAnchor(log, tags[0], 0, q[0]);
    MarkerNamesAnchor(log, tags[last], last, q[last]);
    if q[0].oid == Anchor(q) {
      forall k | k in q
        ensures OfSnapshot(log, Anchor(q), k, q[k])
      {
        assert k <= last && tags[0] <= tags[k] <= tags[last];
      }
    }
    if OneSource(log, q) {
      assert OfSnapshot(log, Anchor(q), 0, q[0]);
      MarkerNamesAnchor(log, Anchor(q), 0, q[0]);
    }
  }

  // ----- what the comparison buys -----

  /** The check that the consumer leaves out: a snapshot that looks whole carries one anchor. */
  predicate AnchorsAgree(s: Tagged, x: Arrival) {
    WholeSnapshot(Tried(s, x)) ==> Tried(s, x)[0].oid == Anchor(Tried(s, x))
  }

  /** The check would have passed whenever a snapshot looked whole. */
  predicate AnchoredRun(xs: seq<Arrival>)
    decreases |xs|
  {
    xs == [] || (AnchoredRun(xs[..|xs| - 1]) && AnchorsAgree(ArriveAll(xs[..|xs| - 1]), xs[|xs| - 1]))
  }

  lemma InOrderIsGenuine(log: seq<Update>, s: Tagged, x: Arrival)
    requires InOrder(log, s, x)
    ensures Genuine(log, x.FromSnapshot?, x.n)
  {
  }

  /** Over a channel that keeps order, a step that passes the check satisfies the hypothesis of
      `RecoveryIsSafe`. */
  lemma AgreeingIsUnmixed(log: seq<Update>, s: Tagged, x: Arrival)
    requires LegalLog(log) && WellTagged(log, s) && InOrder(log, s, x) && AnchorsAgree(s, x)
    ensures UnmixedAt(log, s.c, x.FromSnapshot?, x.n) && Genuine(log, x.FromSnapshot?, x.n)
  {
    hide LegalLog, Genuine, OneSource, InOrder, WellTagged, TagsRise, Arrive;
    InOrderIsGenuine(log, s, x);
    if WholeSnapshot(Tried(s, x)) {
      TriedRises(log, s, x);
      TagsDecide(log, Tried(s, x), Tags(s, x), Arrive(s, x).latest);
    }
  }

  /** When the code as written is safe all the same: over a channel that loses and repeats messages but
      keeps their order, if the check it leaves out would have passed throughout, then whenever the
      consumer is not in recovery it has passed on exactly the book of the log up to its next expected
      number. */
  lemma {:induction false} AnchoredIsSafe(log: seq<Update>, xs: seq<Arrival>)
    requires LegalLog(log) && InOrderRun(log, xs) && AnchoredRun(xs)
    ensures Safe(log, ArriveAll(xs).c)
    decreases |xs|
  {
    hide LegalLog, Safe, AnchorsAgree, InOrder, UnmixedAt, Genuine, OnMessage, WellTagged;
    if xs == [] {
      StartsSafe(log);
    } else {
      var before, x := xs[..|xs| - 1], xs[|xs| - 1];
      assert xs == before + [x];
      AnchoredIsSafe(log, before);
      RunKeepsTags(log, before);
      AgreeingIsUnmixed(log, ArriveAll(before), x);
      MessageIsSafe(log, ArriveAll(before).c, x.FromSnapshot?, x.n);
    }
  }

  lemma StartsSafe(log: seq<Update>)
    ensures Safe(log, INIT_CONSUMER)
  {
  }

  // ----- two snapshots that pass for one -----

  /** A log of one order. */
  const ONE_ORDER := Update(ADD, 1, 0, BUY, 100, 5, 1)

  function QueueOf(ns: seq<Numbered>, n: nat): (q: Queue)
    requires n <= |ns|
    ensures |q| == n
    ensures forall k: nat :: k in q <==> k < n
    ensures forall k :: k in q ==> q[k] == ns[k].update
  {
    if n == 0 then map[]
    else
      SizeAfterInsert(QueueOf(ns, n - 1), n - 1, ns[n - 1].update);
      QueueOf(ns, n - 1)[n - 1 := ns[n - 1].update]
  }

  /** A recovering consumer that throws away what it has of a snapshot when message 0 of another comes. */
  predicate Ready(c: Consumer) {
    c.inRecovery && (c.snaps == map[] || 0 in c.snaps)
  }

  /** Messages 0, 1, 2, ... with the start marker in front are queued as they come, until an end marker. */
  lemma {:induction false} Accumulates(c: Consumer, ns: seq<Numbered>, n: nat)
    requires Ready(c) && 0 < n <= |ns| && forall i :: 0 <= i < |ns| ==> ns[i].seqNum == i
    requires ns[0].update.kind == SNAPSHOT_START && forall i :: 0 < i < n ==> ns[i].update.kind != SNAPSHOT_END
    ensures OnMessages(c, true, ns[..n]) == c.(snaps := QueueOf(ns, n))
  {
    hide OnMessage, Unbroken, WholeSnapshot, QueueOf;
    assert ns[..n][..n - 1] == ns[..n - 1];
    QueueGrows(ns, n - 1);
    NotYetWhole(QueueOf(ns, n), n);
    if n == 1 {
      NoMessages(c, ns);
      FirstWaits(c, ns[0]);
    } else {
      Accumulates(c, ns, n - 1);
      Waits(c, QueueOf(ns, n - 1), ns[n - 1]);
    }
  }

  lemma NoMessages(c: Consumer, ns: seq<Numbered>)
    ensures QueueOf(ns, 0) == map[] && OnMessages(c, true, ns[..0]) == c
  {
  }

  lemma QueueGrows(ns: seq<Numbered>, n: nat)
    requires n < |ns| && ns[n].seqNum == n
    ensures QueueOf(ns, n + 1) == QueueOf(ns, n)[n := ns[n].update] && n !in QueueOf(ns, n)
  {
  }

  lemma NotYetWhole(q: Queue, n: nat)
    requires n > 0 && |q| == n && forall k: nat :: k in q <==> k < n
    requires q[0].kind == SNAPSHOT_START && q[n - 1].kind != SNAPSHOT_END
    ensures Unbroken(q) && !WholeSnapshot(q)
  {
  }

  /** A recovering consumer waits while the snapshot is unbroken and not whole. */
  lemma Waits(c: Consumer, q: Queue, n: Numbered)
    requires c.inRecovery && n.seqNum !in q
    requires Unbroken(q[n.seqNum := n.update]) && !WholeSnapshot(q[n.seqNum := n.update])
    ensures OnMessage(c.(snaps := q), true, n) == c.(snaps := q[n.seqNum := n.update])
  {
    hide Unbroken, Gapless;
  }

  lemma FirstWaits(c: Consumer, n: Numbered)
    requires Ready(c) && n.seqNum == 0
    requires Unbroken(map[0 := n.update]) && !WholeSnapshot(map[0 := n.update])
    ensures OnMessage(c, true, n) == c.(snaps := map[0 := n.update])
  {
    hide Unbroken, Gapless;
    assert Enqueued(c, true, n).snaps == map[0 := n.update];
  }

  lemma {:induction false} ClearsGiveNothing(q: Queue, lo: nat, hi: nat, t: nat)
    requires forall k :: k in q ==> q[k].kind == CLEAR || IsMarker(q[k])
    ensures Replay(t, Gather(q, lo, hi)) == EMPTY_VIEW
    decreases hi
  {
    if lo < hi {
      ClearsGiveNothing(q, lo, hi - 1, t);
      if hi - 1 in q && !IsMarker(q[hi - 1]) {
        ApplyOne(t, EMPTY_VIEW, Gather(q, lo, hi - 1), q[hi - 1]);
      } else {
        assert Gather(q, lo, hi) == Gather(q, lo, hi - 1);
      }
    }
  }

  lemma {:induction false} ListingOf(m: Ledger, n: nat)
    requires m.Keys <= {1}
    ensures Listing(m, n) == if 1 in m && n > 1 then [m[1]] else []
  {
    if n > 0 {
      ListingOf(m, n - 1);
    }
  }

  lemma {:induction false} BodyOf(ms: seq<Ledger>, n: nat)
    requires n <= |ms| && forall i :: 0 <= i < |ms| ==> ms[i].Keys <= if i == 0 then {1} else {}
    ensures var extra := if n > 0 && 1 in ms[0] then 1 else 0;
            |Body(ms, n)| == n + extra
    ensures forall i :: 0 <= i < n && (i > 0 || 1 !in ms[0]) ==>
              Body(ms, n)[i + if 1 in ms[0] then 1 else 0] == ClearUpdate(i)
  {
    if n > 0 {
      BodyOf(ms, n - 1);
      assert ms[n - 1].Keys <= {1};
      ListingOf(ms[n - 1], ME_MAX_ORDER_IDS);
    }
  }

  lemma OneOrderLegal()
    ensures LegalLog([]) && LegalLog([ONE_ORDER])
    ensures forall t :: 0 <= t < ME_MAX_TICKERS ==> Ledgers([])[t] == map[]
    ensures forall t :: 0 <= t < ME_MAX_TICKERS ==>
        Ledgers([ONE_ORDER])[t] == if t == 0 then map[1 := ONE_ORDER] else map[]
    ensures Replay(0, [ONE_ORDER]).bids == [Announced(ONE_ORDER)]
  {
    assert [ONE_ORDER][..0] == [];
    forall t: nat | t < ME_MAX_TICKERS
      ensures LegalFrom(t, EMPTY_VIEW, [ONE_ORDER])
      ensures Synthesize(t, [ONE_ORDER]) == if t == 0 then map[1 := ONE_ORDER] else map[]
    {
      assert LegalFrom(t, EMPTY_VIEW, []);
    }
    ApplyOne(0, EMPTY_VIEW, [], ONE_ORDER);
    assert [] + [ONE_ORDER] == [ONE_ORDER];
  }

  lemma EmptySnapshot()
    ensures var snap := SnapshotAfter([]);
            |snap| == 10 && snap[0] == Marker(SNAPSHOT_START, 0)
            && forall i :: 0 < i < 9 ==> snap[i] == ClearUpdate(i - 1)
  {
    OneOrderLegal();
    BodyOf(Ledgers([]), ME_MAX_TICKERS);
    var body := Body(Ledgers([]), ME_MAX_TICKERS);
    assert forall i :: 0 < i < 9 ==> SnapshotAfter([])[i] == body[i - 1];
  }

  lemma OneOrderSnapshot()
    ensures var snap := SnapshotAfter([ONE_ORDER]);
            |snap| == 11 && snap[9] == ClearUpdate(7) && snap[10] == Marker(SNAPSHOT_END, 1)
  {
    OneOrderLegal();
    BodyOf(Ledgers([ONE_ORDER]), ME_MAX_TICKERS);
    assert SnapshotAfter([ONE_ORDER])[9] == Body(Ledgers([ONE_ORDER]), ME_MAX_TICKERS)[8];
  }

  /** The first nine messages come from the snapshot at anchor 0, the others from the one at 1. */
  ghost predicate FromTwo(log: seq<Update>, ns: seq<Numbered>) {
    forall i :: 0 <= i < |ns| ==> ns[i].seqNum == i && OfSnapshot(log, if i < 9 then 0 else 1, i, ns[i].update)
  }

  function Mix(ns: seq<Numbered>): seq<Arrival> {
    seq(|ns|, i requires 0 <= i < |ns| => FromSnapshot(if i < 9 then 0 else 1, ns[i]))
  }

  /** Such messages keep published order. */
  lemma {:induction false} MixInOrder(log: seq<Update>, ns: seq<Numbered>)
    requires FromTwo(log, ns)
    ensures InOrderRun(log, Mix(ns)) && ArriveAll(Mix(ns)).c == OnMessages(INIT_CONSUMER, true, ns)
    ensures ArriveAll(Mix(ns)).latest == if |ns| > 9 then 1 else 0
    decreases |ns|
  {
    hide OfSnapshot, OnMessage;
    if ns != [] {
      var before := ns[..|ns| - 1];
      assert Mix(ns)[..|ns| - 1] == Mix(before);
      MixInOrder(log, before);
    }
  }

  lemma Mixing(log: seq<Update>, early: seq<Update>, late: seq<Update>) returns (ns: seq<Numbered>)
    requires |early| >= 9 && forall i :: 0 <= i < |early| ==> OfSnapshot(log, 0, i, early[i])
    requires |late| >= 9 && forall i :: 0 <= i < |late| ==> OfSnapshot(log, 1, i, late[i])
    ensures ns == NumberFrom(0, early[..9] + late[9..]) && FromTwo(log, ns)
  {
    hide OfSnapshot;
    ns := NumberFrom(0, early[..9] + late[9..]);
  }

  /** The first nine messages of the snapshot taken before that order, then the last two of the
      snapshot taken after it. */
  lemma MixedMessages() returns (ns: seq<Numbered>)
    ensures |ns| == 11 && FromTwo([ONE_ORDER], ns)
    ensures ns[0].update.kind == SNAPSHOT_START && ns[10].update == Marker(SNAPSHOT_END, 1)
    ensures forall i :: 0 < i < 10 ==> ns[i].update.kind == CLEAR
  {
    hide SnapshotAfter, LegalLog;
    EmptySnapshot();
    OneOrderSnapshot();
    var log := [ONE_ORDER];
    assert log[..0] == [] && log[..1] == log;
    ns := Mixing(log, SnapshotAfter([]), SnapshotAfter(log));
  }

  lemma LooksWhole(q: Queue, n: nat, anchor: nat)
    requires n > 1 && |q| == n && forall k: nat :: k in q <==> k < n
    requires q[0].kind == SNAPSHOT_START && q[n - 1].kind == SNAPSHOT_END && q[n - 1].oid == anchor
    ensures Check(INIT_CONSUMER.(snaps := q)) == Consumer(anchor + 1, false, map[], map[], Gather(q, 0, n))
  {
    assert WholeSnapshot(q) && Anchor(q) == anchor;
    assert Above(map[], anchor) == {};
    assert Gapless(map[], anchor) && Continuation(map[], anchor) == [];
  }

  /** The consumer takes mixed messages without orders for a whole snapshot. */
  lemma MixedMessagesAccepted(ns: seq<Numbered>) returns (out: seq<Update>)
    requires |ns| >= 2 && forall i :: 0 <= i < |ns| ==> ns[i].seqNum == i
    requires ns[0].update.kind == SNAPSHOT_START && ns[|ns| - 1].update == Marker(SNAPSHOT_END, 1)
    requires forall i :: 0 < i < |ns| - 1 ==> ns[i].update.kind == CLEAR
    ensures OnMessages(INIT_CONSUMER, true, ns) == Consumer(2, false, map[], map[], out)
    ensures Replay(0, out) == EMPTY_VIEW
  {
    hide QueueOf, Check, Unbroken, WholeSnapshot;
    var last := |ns| - 1;
    var q0, q := QueueOf(ns, last), QueueOf(ns, |ns|);
    Accumulates(INIT_CONSUMER, ns, last);
    QueueGrows(ns, last);
    assert 0 in q && last in q;
    LooksWhole(q, |ns|, 1);
    ClearsGiveNothing(q, 0, |ns|, 0);
    out := Gather(q, 0, |ns|);
  }

  /** Without the comparison the client can lose an order for good: there are genuine messages, in
      published order, that end recovery at the anchor of the later snapshot with an empty book,
      while the log up to that anchor has an order resting. */
  lemma MixedSnapshotLosesAnOrder() returns (xs: seq<Arrival>)
    ensures LegalLog([ONE_ORDER]) && InOrderRun([ONE_ORDER], xs)
    ensures var c := ArriveAll(xs).c;
            && !c.inRecovery && c.nextExp == 2
            && Replay(0, c.out) == EMPTY_VIEW != Replay(0, [ONE_ORDER][..c.nextExp - 1])
  {
    hide LegalLog, OnMessages, OfSnapshot, InOrderRun, ArriveAll;
    OneOrderLegal();
    var ns := MixedMessages();
    var out := MixedMessagesAccepted(ns);
    MixInOrder([ONE_ORDER], ns);
    xs := Mix(ns);
    assert [ONE_ORDER][..1] == [ONE_ORDER];
  }

  // ----- two snapshots that pass for one and do no harm -----

  /** A log of one trade, which changes no book. */
  const ONE_TRADE := Update(TRADE, ORDER_ID_INVALID, 0, BUY, 100, 5, PRIORITY_INVALID)

  lemma OneTradeLegal()
    ensures LegalLog([ONE_TRADE]) && Replay(0, [ONE_TRADE]) == EMPTY_VIEW
    ensures forall t :: 0 <= t < ME_MAX_TICKERS ==> Ledgers([ONE_TRADE])[t] == map[]
  {
    assert [ONE_TRADE][..0] == [];
    forall t: nat | t < ME_MAX_TICKERS
      ensures LegalFrom(t, EMPTY_VIEW, [ONE_TRADE]) && Synthesize(t, [ONE_TRADE]) == map[]
    {
      assert LegalFrom(t, EMPTY_VIEW, []);
    }
    ApplyOne(0, EMPTY_VIEW, [], ONE_TRADE);
    assert [] + [ONE_TRADE] == [ONE_TRADE];
  }

  lemma OneTradeSnapshot()
    ensures |SnapshotAfter([ONE_TRADE])| == 10 && SnapshotAfter([ONE_TRADE])[9] == Marker(SNAPSHOT_END, 1)
  {
    OneTradeLegal();
    BodyOf(Ledgers([ONE_TRADE]), ME_MAX_TICKERS);
  }

  /** The snapshot taken before the trade, with the end marker of the one taken after it. */
  lemma TradeMessages() returns (ns: seq<Numbered>)
    ensures |ns| == 10 && FromTwo([ONE_TRADE], ns)
    ensures ns[0].update == Marker(SNAPSHOT_START, 0) && ns[9].update == Marker(SNAPSHOT_END, 1)
    ensures forall i :: 0 < i < 9 ==> ns[i].update.kind == CLEAR
  {
    hide SnapshotAfter, LegalLog;
    EmptySnapshot();
    OneTradeSnapshot();
    var log := [ONE_TRADE];
    assert log[..0] == [] && log[..1] == log;
    ns := Mixing(log, SnapshotAfter([]), SnapshotAfter(log));
  }

  lemma FromTwoPrefix(log: seq<Update>, ns: seq<Numbered>)
    requires FromTwo(log, ns) && ns != []
    ensures FromTwo(log, ns[..|ns| - 1]) && forall i :: 0 <= i < |ns| ==> ns[i].seqNum == i
  {
    hide OfSnapshot;
  }

  lemma WholeQueue(q: Queue, n: nat)
    requires n > 1 && |q| == n && forall k: nat :: k in q <==> k < n
    requires q[0].kind == SNAPSHOT_START && q[n - 1].kind == SNAPSHOT_END
    ensures WholeSnapshot(q) && Anchor(q) == q[n - 1].oid
  {
  }

  /** Markers of different snapshots fail the check. */
  lemma MixedFailsCheck(log: seq<Update>, ns: seq<Numbered>)
    requires FromTwo(log, ns) && |ns| >= 10
    requires ns[0].update == Marker(SNAPSHOT_START, 0) && ns[|ns| - 1].update == Marker(SNAPSHOT_END, 1)
    requires forall i :: 0 < i < |ns| - 1 ==> ns[i].update.kind == CLEAR
    ensures !AnchoredRun(Mix(ns))
  {
    hide OfSnapshot, OnMessages, InOrderRun, ArriveAll, WholeSnapshot, QueueOf, FromTwo;
    var last := |ns| - 1;
    var s, q := ArriveAll(Mix(ns[..last])), QueueOf(ns, |ns|);
    assert Mix(ns)[..last] == Mix(ns[..last]);
    FromTwoPrefix(log, ns);
    MixInOrder(log, ns[..last]);
    Accumulates(INIT_CONSUMER, ns, last);
    QueueGrows(ns, last);
    assert Tried(s, Mix(ns)[last]) == q && 0 in q && last in q;
    WholeQueue(q, |ns|);
  }

  /** The comparison can reject more than it has to: there are messages in published order that fail it
      and rebuild the right book all the same, because the books did not change between the two
      snapshots. So equal anchors are enough for safety, and not necessary. */
  lemma MixedSnapshotDoesNoHarm() returns (xs: seq<Arrival>)
    ensures LegalLog([ONE_TRADE]) && InOrderRun([ONE_TRADE], xs) && !AnchoredRun(xs)
    ensures var c := ArriveAll(xs).c;
            !c.inRecovery && c.nextExp == 2 && Replay(0, c.out) == Replay(0, [ONE_TRADE][..c.nextExp - 1])
  {
    hide LegalLog, OnMessages, OfSnapshot, AnchoredRun, InOrderRun, ArriveAll;
    OneTradeLegal();
    var ns := TradeMessages();
    var out := MixedMessagesAccepted(ns);
    MixInOrder([ONE_TRADE], ns);
    MixedFailsCheck([ONE_TRADE], ns);
    xs := Mix(ns);
    assert [ONE_TRADE][..1] == [ONE_TRADE];
  }
}
