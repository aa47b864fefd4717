/** The order server's side of a byte stream: cutting it into records whatever way it arrives, and
    letting through each client's requests once and in order. */
module Framing {
  import opened Common
  import opened Ladder
  import opened Wire

  /** The complete records at the front of `b`, decoded. */
  function Messages(b: seq<Byte>): seq<OMClientRequest>
    decreases |b|
  {
    if |b| < RECORD then [] else [Decode(b[..RECORD])] + Messages(b[RECORD..])
  }

  /** What is left behind them. */
  function Remainder(b: seq<Byte>): (r: seq<Byte>)
    ensures |r| < RECORD && |r| <= |b|
    decreases |b|
  {
    if |b| < RECORD then b else Remainder(b[RECORD..])
  }

  /** More bytes behind `a` are cut as if they stood behind its remainder. */
  lemma {:induction false} CutLater(a: seq<Byte>, b: seq<Byte>)
    ensures Messages(a + b) == Messages(a) + Messages(Remainder(a) + b)
    ensures Remainder(a + b) == Remainder(Remainder(a) + b)
    decreases |a|
  {
    if |a| >= RECORD {
      assert (a + b)[..RECORD] == a[..RECORD] && (a + b)[RECORD..] == a[RECORD..] + b;
      CutLater(a[RECORD..], b);
      Regroup([Decode(a[..RECORD])], Messages(a[RECORD..]), Messages(Remainder(a[RECORD..]) + b));
    }
  }

  // ----- the sequence filter -----

  const NO_SOCKET: int := -1

  /** For each client the next sequence number expected and the socket it uses; and what was let through. */
  datatype Intake = Intake(expected: seq<nat>, sockets: seq<int>, accepted: seq<OMClientRequest>)
  {
    predicate Sized() {
      |expected| == ME_MAX_NUM_CLIENTS && |sockets| == ME_MAX_NUM_CLIENTS
    }
  }

  function NewIntake(): Intake {
    Intake(seq(ME_MAX_NUM_CLIENTS, _ => 1), seq(ME_MAX_NUM_CLIENTS, _ => NO_SOCKET), [])
  }

  /** One request. The source indexes its tables with the client id unchecked; ids out of range are
      dropped here. */
  function Take(s: Intake, socket: int, m: OMClientRequest): Intake
    requires s.Sized()
  {
    if m.client >= ME_MAX_NUM_CLIENTS then s
    else
      var s' := if s.sockets[m.client] == NO_SOCKET then s.(sockets := s.sockets[m.client := socket]) else s;
      if s'.sockets[m.client] != socket || m.seqNum != s'.expected[m.client] then s'
      else s'.(expected := s'.expected[m.client := m.seqNum + 1], accepted := s'.accepted + [m])
  }

  function TakeAll(s: Intake, socket: int, ms: seq<OMClientRequest>): (s': Intake)
    requires s.Sized()
    ensures s'.Sized()
    decreases |ms|
  {
    if ms == [] then s else Take(TakeAll(s, socket, ms[..|ms| - 1]), socket, ms[|ms| - 1])
  }

  lemma {:induction false} TakeAppend(s: Intake, socket: int, a: seq<OMClientRequest>, b: seq<OMClientRequest>)
    requires s.Sized()
    ensures TakeAll(s, socket, a + b) == TakeAll(TakeAll(s, socket, a), socket, b)
    decreases |b|
  {
    if b == [] {
      assert a + b == a;
    } else {
      assert (a + b)[..|a + b| - 1] == a + b[..|b| - 1];
      TakeAppend(s, socket, a, b[..|b| - 1]);
    }
  }

  // ----- one read after another -----

  /** A connection: the bytes waiting in its buffer, and the intake. */
  datatype Connection = Connection(waiting: seq<Byte>, intake: Intake)

  /** One read of `chunk` and the callback that follows it. */
  function Receive(c: Connection, socket: int, chunk: seq<Byte>): Connection
    requires c.intake.Sized()
  {
    var all := c.waiting + chunk;
    Connection(Remainder(all), TakeAll(c.intake, socket, Messages(all)))
  }

  function ReceiveAll(c: Connection, socket: int, chunks: seq<seq<Byte>>): (c': Connection)
    requires c.intake.Sized()
    ensures c'.intake.Sized()
    decreases |chunks|
  {
    if chunks == [] then c else Receive(ReceiveAll(c, socket, chunks[..|chunks| - 1]), socket, chunks[|chunks| - 1])
  }

  function Flatten(chunks: seq<seq<Byte>>): seq<Byte>
    decreases |chunks|
  {
    if chunks == [] then [] else Flatten(chunks[..|chunks| - 1]) + chunks[|chunks| - 1]
  }

  /** However the stream is split into reads, the same requests are let through as if it had come in
      one piece, and less than one record waits. */
  lemma {:induction false} SplitsDoNotMatter(c: Connection, socket: int, chunks: seq<seq<Byte>>)
    requires c.intake.Sized() && |c.waiting| < RECORD
    ensures ReceiveAll(c, socket, chunks) == Receive(c, socket, Flatten(chunks))
    ensures |ReceiveAll(c, socket, chunks).waiting| < RECORD
    decreases |chunks|
  {
    if chunks == [] {
      assert c.waiting + [] == c.waiting;
    } else {
      var before, last := chunks[..|chunks| - 1], chunks[|chunks| - 1];
      SplitsDoNotMatter(c, socket, before);
      var all := c.waiting + Flatten(before);
      CutLater(all, last);
      TakeAppend(c.intake, socket, Messages(all), Messages(Remainder(all) + last));
      Regroup(c.waiting, Flatten(before), last);
    }
  }

  // ----- exactly once, in order -----

  /** The sequence numbers let through for one client. */
  function Numbers(ms: seq<OMClientRequest>, client: nat): seq<nat>
    decreases |ms|
  {
    if ms == [] then []
    else
      var m := ms[|ms| - 1];
      Numbers(ms[..|ms| - 1], client) + (if m.client == client then [m.seqNum] else [])
  }

  /** 1, 2, 3, ... up to but not including `n`. */
  function Counting(n: nat): seq<nat> {
    if n <= 1 then [] else Counting(n - 1) + [n - 1]
  }

  /** Each client's accepted requests are numbered 1, 2, 3, ..., and a client that has any has a socket. */
  ghost predicate InSequence(s: Intake)
    requires s.Sized()
  {
    forall c: nat :: c < ME_MAX_NUM_CLIENTS ==>
      && s.expected[c] >= 1 && Numbers(s.accepted, c) == Counting(s.expected[c])
      && (s.expected[c] > 1 ==> s.sockets[c] != NO_SOCKET)
  }

  lemma TakeKeepsSequence(s: Intake, socket: int, m: OMClientRequest)
    requires s.Sized() && InSequence(s) && socket != NO_SOCKET
    ensures InSequence(Take(s, socket, m))
  {
    var s' := Take(s, socket, m);
    forall c: nat | c < ME_MAX_NUM_CLIENTS
      ensures s'.expected[c] >= 1 && Numbers(s'.accepted, c) == Counting(s'.expected[c])
      ensures s'.expected[c] > 1 ==> s'.sockets[c] != NO_SOCKET
    {
      assert s.expected[c] >= 1 && Numbers(s.accepted, c) == Counting(s.expected[c]);
      if s'.accepted != s.accepted {
        assert s'.accepted[..|s'.accepted| - 1] == s.accepted;
      }
    }
  }

  lemma {:induction false} TakeAllKeepsSequence(s: Intake, socket: int, ms: seq<OMClientRequest>)
    requires s.Sized() && InSequence(s) && socket != NO_SOCKET
    ensures InSequence(TakeAll(s, socket, ms))
    decreases |ms|
  {
    if ms != [] {
      TakeAllKeepsSequence(s, socket, ms[..|ms| - 1]);
      TakeKeepsSequence(TakeAll(s, socket, ms[..|ms| - 1]), socket, ms[|ms| - 1]);
    }
  }

  // ----- the gateway at the other end -----

  /** What a gateway makes of the requests it dequeues: the same, numbered 1, 2, 3, ... */
  function NumberedRequests(requests: seq<OMClientRequest>): (ms: seq<OMClientRequest>)
    ensures |ms| == |requests|
    ensures forall i :: 0 <= i < |ms| ==> ms[i] == requests[i].(seqNum := i + 1)
  {
    seq(|requests|, i requires 0 <= i < |requests| => requests[i].(seqNum := i + 1))
  }

  function Bytes(ms: seq<OMClientRequest>): seq<Byte> {
    if ms == [] then [] else Encode(ms[0]) + Bytes(ms[1..])
  }

  ghost predicate AllStorable(ms: seq<OMClientRequest>) {
    forall i :: 0 <= i < |ms| ==> ms[i].Storable()
  }

  /** The records found in the first `n` bytes of a stream are the first messages that went into it. */
  lemma {:induction false} PrefixOfStream(ms: seq<OMClientRequest>, n: nat)
    requires AllStorable(ms) && n <= |Bytes(ms)|
    ensures |Bytes(ms)| == RECORD * |ms|
    ensures n / RECORD <= |ms| && Messages(Bytes(ms)[..n]) == ms[..n / RECORD]
    decreases |ms|
  {
    hide Encode, Decode;
    if ms != [] {
      var b := Bytes(ms);
      assert b[..RECORD] == Encode(ms[0]) && b[RECORD..] == Bytes(ms[1..]);
      PrefixOfStream(ms[1..], if n < RECORD then 0 else n - RECORD);
      if n >= RECORD {
        DecodeEncode(ms[0]);
        assert b[..n][..RECORD] == Encode(ms[0]) && b[..n][RECORD..] == Bytes(ms[1..])[..n - RECORD];
        assert (n - RECORD) / RECORD == n / RECORD - 1;
        assert ms[..n / RECORD] == [ms[0]] + ms[1..][..n / RECORD - 1];
      }
    }
  }
}
