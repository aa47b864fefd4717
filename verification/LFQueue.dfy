/** The lock-free queue between one writer thread and one reader thread, as a system of atomic steps
    that a scheduler interleaves as it likes. */
module LFQueue {
  import opened Pool

  /** Where the writer is in `getNextToWriteTo`, the write through the pointer, and `updateWriteIndex`. */
  datatype Writer<T> =
    | Thinking
    | Filling(slot: nat, value: T)
    | Filled(slot: nat)
    | Loaded(next: nat)
    | Published

  /** Where the reader is in `getNextToRead`, the test of `size()` if it makes one, the read through
      the pointer, and `updateReadIndex`. */
  datatype Reader<T> =
    | Polling
    | Comparing(first: nat)
    | Holding(slot: nat)
    | Guarded(slot: nat)
    | Consumed
    | Advancing(next: nat)
    | Advanced
    | Checked
    | AssertFired

  /** The three atomics, the ring, both threads, and as history everything published and everything
      read. `released` counts the read index updates. */
  datatype Queue<T> = Queue(store: seq<T>, writeIndex: nat, readIndex: nat, numElements: int,
                            writer: Writer<T>, reader: Reader<T>, pushed: seq<T>, popped: seq<T>, released: nat)

  function Start<T>(n: nat, filler: T): Queue<T> {
    Queue(seq(n, _ => filler), 0, 0, 0, Thinking, Polling, [], [], 0)
  }

  function Next(i: nat, n: nat): nat
    requires n > 0
  {
    (i + 1) % n
  }

  lemma NextIs(i: nat, n: nat)
    requires i < n
    ensures Next(i, n) == if i + 1 == n then 0 else i + 1
  {
  }

  /** One access by the writer. It starts on a value only while fewer than the capacity less one are
      unread; that is what the users of the queue must see to. */
  function WriterStep<T>(q: Queue<T>, v: T): Queue<T>
    requires |q.store| > 0
  {
    match q.writer
    case Thinking =>
      if |q.pushed| - q.released < |q.store| - 1 then q.(writer := Filling(q.writeIndex, v)) else q
    case Filling(slot, value) =>
      if slot < |q.store| then q.(store := q.store[slot := value], writer := Filled(slot)) else q
    case Filled(slot) => q.(writer := Loaded(Next(q.writeIndex, |q.store|)))
    case Loaded(next) =>
      if q.writeIndex >= |q.store| then q
      else q.(writeIndex := next, writer := Published, pushed := q.pushed + [q.store[q.writeIndex]])
    case Published => q.(numElements := q.numElements + 1, writer := Thinking)
  }

  /** One access by the reader. With `guarded` it tests `size()` before it uses the pointer. */
  function ReaderStep<T>(q: Queue<T>, guarded: bool): Queue<T>
    requires |q.store| > 0
  {
    match q.reader
    case Polling => q.(reader := Comparing(q.readIndex))
    case Comparing(first) => q.(reader := if first == q.writeIndex then Polling else Holding(q.readIndex))
    case Holding(slot) =>
      if !guarded then q.(reader := Guarded(slot))
      else q.(reader := if q.numElements == 0 then Polling else Guarded(slot))
    case Guarded(slot) =>
      if slot < |q.store| then q.(reader := Consumed, popped := q.popped + [q.store[slot]]) else q
    case Consumed => q.(reader := Advancing(Next(q.readIndex, |q.store|)))
    case Advancing(next) => q.(readIndex := next, reader := Advanced, released := q.released + 1)
    case Advanced => q.(reader := if q.numElements == 0 then AssertFired else Checked)
    case Checked => q.(numElements := q.numElements - 1, reader := Polling)
    case AssertFired => q
  }

  /** Whose turn it is; the writer brings the value it wants to write next. */
  datatype Turn<T> = Write(v: T) | Read

  function Step<T>(q: Queue<T>, guarded: bool, turn: Turn<T>): Queue<T>
    requires |q.store| > 0
  {
    match turn
    case Write(v) => WriterStep(q, v)
    case Read => ReaderStep(q, guarded)
  }

  // ----- the invariant -----

  /** Published and not yet released. */
  function Unread<T>(q: Queue<T>): int {
    |q.pushed| - q.released
  }

  ghost predicate RingOk<T>(q: Queue<T>) {
    && 0 < |q.store| && 0 <= Unread(q) < |q.store|
    && q.readIndex < |q.store| && q.writeIndex == Onward(q.readIndex, Unread(q), |q.store|)
    && (forall i :: 0 <= i < Unread(q) ==> q.store[Onward(q.readIndex, i, |q.store|)] == q.pushed[q.released + i])
  }

  ghost predicate WriterOk<T>(q: Queue<T>) {
    match q.writer
    case Thinking => true
    case Filling(slot, _) => slot == q.writeIndex && Unread(q) < |q.store| - 1
    case Filled(slot) => slot == q.writeIndex && Unread(q) < |q.store| - 1
    case Loaded(next) => q.writeIndex < |q.store| && next == Next(q.writeIndex, |q.store|) && Unread(q) < |q.store| - 1
    case Published => true
  }

  /** What the reader holds is published and not released; what it has read is a prefix of what was published. */
  ghost predicate ReaderOk<T>(q: Queue<T>) {
    && |q.popped| <= |q.pushed| && q.popped == q.pushed[..|q.popped|]
    && match q.reader
       case Polling => |q.popped| == q.released
       case Comparing(first) => |q.popped| == q.released && first == q.readIndex
       case Holding(slot) => |q.popped| == q.released && slot == q.readIndex && Unread(q) > 0
       case Guarded(slot) => |q.popped| == q.released && slot == q.readIndex && Unread(q) > 0
       case Consumed => |q.popped| == q.released + 1
       case Advancing(next) =>
         |q.popped| == q.released + 1 && q.readIndex < |q.store| && next == Next(q.readIndex, |q.store|)
       case Advanced => |q.popped| == q.released
       case Checked => |q.popped| == q.released
       case AssertFired => |q.popped| == q.released
  }

  /** The counter lags behind the indexes by what either thread still has to account for. */
  ghost predicate CountOk<T>(q: Queue<T>) {
    q.numElements == Unread(q) - (if q.writer.Published? then 1 else 0)
                   + (if q.reader.Advanced? || q.reader.Checked? || q.reader.AssertFired? then 1 else 0)
  }

  ghost predicate Inv<T>(q: Queue<T>) {
    RingOk(q) && WriterOk(q) && ReaderOk(q) && CountOk(q)
  }

  /** For a guarded reader, besides: from the test on, the counter covers the element it holds. */
  ghost predicate GuardOk<T>(q: Queue<T>) {
    && !q.reader.AssertFired?
    && (q.reader.Guarded? || q.reader.Consumed? || q.reader.Advancing? || q.reader.Advanced? || q.reader.Checked? ==>
        q.numElements >= 1)
  }

  /** Neighbouring positions of the ring. */
  lemma OnwardNext(r: nat, d: nat, n: nat)
    requires r < n && d < n
    ensures Next(Onward(r, d, n), n) == Onward(r, d + 1, n)
    ensures d > 0 ==> Onward(Next(r, n), d - 1, n) == Onward(r, d, n)
  {
    hide Next;
    NextIs(Onward(r, d, n), n);
    NextIs(r, n);
  }

  lemma OnwardApart(r: nat, d: nat, e: nat, n: nat)
    requires r < n && d < n && e < n
    ensures Onward(r, d, n) == Onward(r, e, n) <==> d == e
  {
  }

  /** Writing the slot at the write index touches nothing unread. */
  lemma FillKeepsRing<T>(q: Queue<T>, v: T, w: Writer<T>)
    requires RingOk(q)
    ensures RingOk(q.(store := q.store[q.writeIndex := v], writer := w))
  {
    forall i | 0 <= i < Unread(q)
      ensures Onward(q.readIndex, i, |q.store|) != q.writeIndex
    {
      OnwardApart(q.readIndex, i, Unread(q), |q.store|);
    }
  }

  lemma PublishKeepsRing<T>(q: Queue<T>, w: Writer<T>)
    requires RingOk(q) && Unread(q) < |q.store| - 1
    ensures RingOk(q.(writeIndex := Next(q.writeIndex, |q.store|), writer := w,
        pushed := q.pushed + [q.store[q.writeIndex]]))
  {
    hide Next;
    OnwardNext(q.readIndex, Unread(q), |q.store|);
  }

  lemma AdvanceKeepsRing<T>(q: Queue<T>, r: Reader<T>)
    requires RingOk(q) && Unread(q) > 0
    ensures RingOk(q.(readIndex := Next(q.readIndex, |q.store|), reader := r, released := q.released + 1))
  {
    hide Next;
    var n := |q.store|;
    NextIs(q.readIndex, n);
    OnwardNext(q.readIndex, Unread(q), n);
    forall i | 0 <= i < Unread(q) - 1
      ensures q.store[Onward(Next(q.readIndex, n), i, n)] == q.pushed[q.released + 1 + i]
    {
      OnwardNext(q.readIndex, i + 1, n);
    }
  }

  lemma WriterKeeps<T>(q: Queue<T>, v: T)
    requires Inv(q)
    ensures Inv(WriterStep(q, v)) && (GuardOk(q) ==> GuardOk(WriterStep(q, v)))
  {
    hide Next, RingOk;
    RingParts(q);
    match q.writer
    case Thinking => SameRing(q, WriterStep(q, v));
    case Filling(slot, value) => FillKeepsRing(q, value, Filled(slot));
    case Filled(slot) => SameRing(q, WriterStep(q, v));
    case Loaded(next) => PublishKeepsRing(q, Published);
    case Published => SameRing(q, WriterStep(q, v));
  }

  lemma RingParts<T>(q: Queue<T>)
    requires RingOk(q)
    ensures 0 < |q.store| && 0 <= Unread(q) < |q.store| && q.readIndex < |q.store| && q.writeIndex < |q.store|
    ensures q.readIndex == q.writeIndex <==> Unread(q) == 0
    ensures Unread(q) > 0 ==> q.store[q.readIndex] == q.pushed[q.released]
  {
    OnwardApart(q.readIndex, 0, Unread(q), |q.store|);
    assert Unread(q) > 0 ==> q.store[Onward(q.readIndex, 0, |q.store|)] == q.pushed[q.released];
  }

  lemma SameRing<T>(q: Queue<T>, q': Queue<T>)
    requires RingOk(q) && q'.store == q.store && q'.readIndex == q.readIndex && q'.writeIndex == q.writeIndex
    requires q'.pushed == q.pushed && q'.released == q.released
    ensures RingOk(q')
  {
  }

  lemma ReaderKeeps<T>(q: Queue<T>, guarded: bool)
    requires Inv(q)
    ensures Inv(ReaderStep(q, guarded)) && (guarded && GuardOk(q) ==> GuardOk(ReaderStep(q, guarded)))
  {
    hide Next, RingOk;
    RingParts(q);
    if q.reader.Advancing? {
      AdvanceKeepsRing(q, Advanced);
    } else {
      SameRing(q, ReaderStep(q, guarded));
    }
  }

  // ----- every interleaving -----

  /** The queue after a schedule, from empty. */
  function Run<T>(n: nat, filler: T, guarded: bool, turns: seq<Turn<T>>): (q: Queue<T>)
    requires n > 0
    ensures |q.store| == n
    decreases |turns|
  {
    if turns == [] then Start(n, filler)
    else Step(Run(n, filler, guarded, turns[..|turns| - 1]), guarded, turns[|turns| - 1])
  }

  lemma {:induction false} RunKeeps<T>(n: nat, filler: T, guarded: bool, turns: seq<Turn<T>>)
    requires n > 0
    ensures Inv(Run(n, filler, guarded, turns)) && (guarded ==> GuardOk(Run(n, filler, guarded, turns)))
    decreases |turns|
  {
    if turns != [] {
      RunKeeps(n, filler, guarded, turns[..|turns| - 1]);
      var q := Run(n, filler, guarded, turns[..|turns| - 1]);
      match turns[|turns| - 1]
      case Write(v) => WriterKeeps(q, v);
      case Read => ReaderKeeps(q, guarded);
    }
  }

  /** Under every interleaving the queue is first in, first out: what the reader has read is a prefix
      of what was published, in order; equal indexes mean that all of it was; and the writer never
      fills a slot that the reader holds. */
  lemma FirstInFirstOut<T>(n: nat, filler: T, guarded: bool, turns: seq<Turn<T>>)
    requires n > 0
    ensures var q := Run(n, filler, guarded, turns);
            && q.popped <= q.pushed && |q.pushed| - |q.popped| < n
            && (q.readIndex == q.writeIndex <==> q.released == |q.pushed|)
            && ((q.writer.Filling? || q.writer.Filled?) && (q.reader.Holding? || q.reader.Guarded?) ==>
                q.writer.slot != q.reader.slot)
  {
    RunKeeps(n, filler, guarded, turns);
    RingParts(Run(n, filler, guarded, turns));
  }

  // ----- nothing but what was brought, and all of it -----

  /** The values that the writer has started on, in order. */
  function Brought<T>(n: nat, filler: T, guarded: bool, turns: seq<Turn<T>>): seq<T>
    requires n > 0
    decreases |turns|
  {
    if turns == [] then []
    else
      var m := |turns| - 1;
      var before, q := Brought(n, filler, guarded, turns[..m]), Run(n, filler, guarded, turns[..m]);
      match turns[m]
      case Write(v) => if q.writer.Thinking? && |q.pushed| - q.released < n - 1 then before + [v] else before
      case Read => before
  }

  /** The value that the writer has started on and not published yet. */
  ghost function InHand<T>(q: Queue<T>): seq<T>
    requires RingOk(q)
  {
    match q.writer
    case Filling(_, v) => [v]
    case Filled(_) => (RingParts(q); [q.store[q.writeIndex]])
    case Loaded(_) => (RingParts(q); [q.store[q.writeIndex]])
    case Thinking => []
    case Published => []
  }

  lemma WriterCarries<T>(q: Queue<T>, v: T)
    requires Inv(q)
    ensures Inv(WriterStep(q, v))
    ensures WriterStep(q, v).pushed + InHand(WriterStep(q, v))
         == q.pushed + InHand(q) + if q.writer.Thinking? && Unread(q) < |q.store| - 1 then [v] else []
  {
    hide RingOk, Next;
    RingParts(q);
    WriterKeeps(q, v);
  }

  lemma ReaderCarries<T>(q: Queue<T>, guarded: bool)
    requires Inv(q)
    ensures Inv(ReaderStep(q, guarded))
    ensures ReaderStep(q, guarded).pushed + InHand(ReaderStep(q, guarded)) == q.pushed + InHand(q)
  {
    hide RingOk, Next;
    RingParts(q);
    ReaderKeeps(q, guarded);
  }

  /** Under every interleaving what was published is what the writer brought, value for value and in order;
      only the one it is busy with may still be missing. */
  lemma {:induction false} PublishesWhatIsBrought<T>(n: nat, filler: T, guarded: bool, turns: seq<Turn<T>>)
    requires n > 0
    ensures var q, brought := Run(n, filler, guarded, turns), Brought(n, filler, guarded, turns);
            && Inv(q) && brought == q.pushed + InHand(q)
            && q.pushed <= brought && |brought| <= |q.pushed| + 1
            && (q.writer.Thinking? || q.writer.Published? ==> q.pushed == brought)
    decreases |turns|
  {
    hide RingOk, WriterStep, ReaderStep;
    RunKeeps(n, filler, guarded, turns);
    if turns != [] {
      var m := |turns| - 1;
      PublishesWhatIsBrought(n, filler, guarded, turns[..m]);
      var q := Run(n, filler, guarded, turns[..m]);
      match turns[m]
      case Write(v) => WriterCarries(q, v);
      case Read => ReaderCarries(q, guarded);
    }
  }

  // ----- progress -----

  /** The reader alone takes so many steps. */
  function Reads<T>(q: Queue<T>, guarded: bool, steps: nat): (q': Queue<T>)
    requires |q.store| > 0
    ensures |q'.store| == |q.store|
    decreases steps
  {
    if steps == 0 then q else Reads(ReaderStep(q, guarded), guarded, steps - 1)
  }

  function Writes<T>(q: Queue<T>, v: T, steps: nat): (q': Queue<T>)
    requires |q.store| > 0
    ensures |q'.store| == |q.store|
    decreases steps
  {
    if steps == 0 then q else Writes(WriterStep(q, v), v, steps - 1)
  }

  lemma TwoReads<T>(q: Queue<T>, guarded: bool, more: nat) returns (q': Queue<T>)
    requires |q.store| > 0
    ensures q' == ReaderStep(ReaderStep(q, guarded), guarded) && |q'.store| == |q.store|
    ensures Reads(q, guarded, more + 2) == Reads(q', guarded, more)
  {
    q' := ReaderStep(ReaderStep(q, guarded), guarded);
  }

  lemma TwoWrites<T>(q: Queue<T>, v: T, more: nat) returns (q': Queue<T>)
    requires |q.store| > 0
    ensures q' == WriterStep(WriterStep(q, v), v) && |q'.store| == |q.store|
    ensures Writes(q, v, more + 2) == Writes(q', v, more)
  {
    q' := WriterStep(WriterStep(q, v), v);
  }

  /** With something unread and the writer between two values, a polling reader takes the next value in eight
      accesses and polls again. */
  lemma ReaderGetsNext<T>(q: Queue<T>, guarded: bool)
    requires Inv(q) && q.writer.Thinking? && q.reader.Polling? && Unread(q) > 0
    ensures var q' := Reads(q, guarded, 8);
            q'.reader.Polling? && q'.popped == q.popped + [q.pushed[|q.popped|]] && Unread(q') == Unread(q) - 1
  {
    hide RingOk, Next;
    RingParts(q);
    var q2 := TwoReads(q, guarded, 6);
    var q4 := TwoReads(q2, guarded, 4);
    var q6 := TwoReads(q4, guarded, 2);
    var q8 := TwoReads(q6, guarded, 0);
  }

  /** With room for one more, a writer with nothing in hand publishes its value in five accesses. */
  lemma WriterGetsThrough<T>(q: Queue<T>, v: T)
    requires Inv(q) && q.writer.Thinking? && Unread(q) < |q.store| - 1
    ensures var q' := Writes(q, v, 5);
            q'.writer.Thinking? && q'.pushed == q.pushed + [v] && Unread(q') == Unread(q) + 1
  {
    hide RingOk, Next;
    RingParts(q);
    var q2 := TwoWrites(q, v, 3);
    var q4 := TwoWrites(q2, v, 1);
    assert Writes(q4, v, 1) == Writes(WriterStep(q4, v), v, 0);
  }

  /** The assertion in `updateReadIndex` never fires for a reader that also tests `size()`. */
  lemma GuardedNeverAsserts<T>(n: nat, filler: T, turns: seq<Turn<T>>)
    requires n > 0
    ensures !Run(n, filler, true, turns).reader.AssertFired?
  {
    RunKeeps(n, filler, true, turns);
  }

  lemma RunSplit<T>(n: nat, filler: T, guarded: bool, turns: seq<Turn<T>>, turn: Turn<T>)
    requires n > 0
    ensures Run(n, filler, guarded, turns + [turn]) == Step(Run(n, filler, guarded, turns), guarded, turn)
  {
    assert (turns + [turn])[..|turns + [turn]| - 1] == turns;
  }

  /** For a reader that does not, it can fire: the writer has published the element and not counted it
      yet when the reader takes it (as in matching_engine.cpp:47-53). */
  lemma UnguardedCanAssert<T>(n: nat, filler: T, v: T) returns (turns: seq<Turn<T>>)
    requires n > 1
    ensures Run(n, filler, false, turns).reader.AssertFired?
  {
    var q := Start(n, filler);
    turns := [];
    assert Run(n, filler, false, turns) == q;
    turns, q := More(n, filler, turns, Write(v), q);
    turns, q := More(n, filler, turns, Write(v), q);
    turns, q := More(n, filler, turns, Write(v), q);
    turns, q := More(n, filler, turns, Write(v), q);
    turns, q := More(n, filler, turns, Read, q);
    turns, q := More(n, filler, turns, Read, q);
    turns, q := More(n, filler, turns, Read, q);
    turns, q := More(n, filler, turns, Read, q);
    turns, q := More(n, filler, turns, Read, q);
    turns, q := More(n, filler, turns, Read, q);
    turns, q := More(n, filler, turns, Read, q);
  }

  lemma More<T>(n: nat, filler: T, turns: seq<Turn<T>>, turn: Turn<T>, q: Queue<T>)
          returns (turns': seq<Turn<T>>, q': Queue<T>)
    requires n > 0 && q == Run(n, filler, false, turns)
    ensures turns' == turns + [turn] && q' == Step(q, false, turn) == Run(n, filler, false, turns')
  {
    turns' := turns + [turn];
    q' := Step(q, false, turn);
    RunSplit(n, filler, false, turns, turn);
  }

  /** Why the writer must hold back: publishing into a ring with one free slot makes it look empty. */
  lemma OverrunLooksEmpty<T>(q: Queue<T>)
    requires RingOk(q) && Unread(q) == |q.store| - 1
    ensures Next(q.writeIndex, |q.store|) == q.readIndex
  {
    OnwardNext(q.readIndex, Unread(q), |q.store|);
  }
}
