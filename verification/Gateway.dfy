/** The two ends of a client's connection: the gateway that numbers requests and filters responses,
    and the order server's loop that numbers and routes the responses. */
module Gateway {
  import opened Common
  import opened Ladder
  import opened Wire
  import opened Framing

  /** A response with its place in its client's stream. */
  datatype OMClientResponse = OMClientResponse(seqNum: nat, response: Response)

  /** The responses for one client. */
  function ForClient(rs: seq<Response>, client: nat): seq<Response>
    decreases |rs|
  {
    if rs == [] then []
    else
      var r := rs[|rs| - 1];
      ForClient(rs[..|rs| - 1], client) + (if r.ref.client == client then [r] else [])
  }

  lemma ForClientOneMore(rs: seq<Response>, r: Response, client: nat)
    ensures ForClient(rs + [r], client)
         == if r.ref.client == client then ForClient(rs, client) + [r] else ForClient(rs, client)
  {
    assert (rs + [r])[..|rs + [r]| - 1] == rs;
  }

  lemma {:induction false} ForClientOnly(rs: seq<Response>, client: nat)
    ensures forall i :: 0 <= i < |ForClient(rs, client)| ==> ForClient(rs, client)[i].ref.client == client
    decreases |rs|
  {
    if rs != [] {
      ForClientOnly(rs[..|rs| - 1], client);
    }
  }

  ghost predicate Rising(ks: seq<nat>) {
    forall a, b :: 0 <= a < b < |ks| ==> ks[a] < ks[b]
  }

  /** A client's responses are the ones that name it: all of them, no others, and in order. */
  lemma {:induction false} ForClientPicks(rs: seq<Response>, client: nat) returns (ks: seq<nat>)
    ensures Rising(ks) && forall i: nat :: i in ks <==> i < |rs| && rs[i].ref.client == client
    ensures |ForClient(rs, client)| == |ks|
    ensures forall a :: 0 <= a < |ks| ==> ks[a] < |rs| && ForClient(rs, client)[a] == rs[ks[a]]
    decreases |rs|
  {
    ks := [];
    if rs != [] {
      var n := |rs| - 1;
      ks := ForClientPicks(rs[..n], client);
      assert forall a :: 0 <= a < |ks| ==> ks[a] in ks;
      if rs[n].ref.client == client {
        ks := ks + [n];
      }
    }
  }

  function NumberedResponses(rs: seq<Response>): (ms: seq<OMClientResponse>)
    ensures |ms| == |rs|
    ensures forall i :: 0 <= i < |ms| ==> ms[i] == OMClientResponse(i + 1, rs[i])
  {
    seq(|rs|, i requires 0 <= i < |rs| => OMClientResponse(i + 1, rs[i]))
  }

  /** A stream carries the responses `rs` numbered from 1, and `next` is the number to use next. */
  ghost predicate Carries(stream: seq<OMClientResponse>, next: nat, rs: seq<Response>) {
    stream == NumberedResponses(rs) && next == |rs| + 1
  }

  lemma CarriesOneMore(stream: seq<OMClientResponse>, next: nat, rs: seq<Response>, r: Response)
    requires Carries(stream, next, rs)
    ensures Carries(stream + [OMClientResponse(next, r)], next + 1, rs + [r])
  {
  }

  /** Every response is for a client whose socket is known. */
  predicate Connected(queue: seq<Response>, sockets: seq<int>) {
    && |sockets| == ME_MAX_NUM_CLIENTS
    && forall i :: 0 <= i < |queue| ==>
         queue[i].ref.client < ME_MAX_NUM_CLIENTS && sockets[queue[i].ref.client] != NO_SOCKET
  }

  /** The order server's response loop, with one outgoing stream for each client's socket. */
  class ResponseRouter {
    const nextOutgoing: array<nat>
    const streams: array<seq<OMClientResponse>>

    ghost predicate Valid() {
      nextOutgoing.Length == ME_MAX_NUM_CLIENTS && streams.Length == ME_MAX_NUM_CLIENTS
    }

    /** Every client has been sent exactly its responses of `log`, numbered from 1. */
    ghost predicate Sent(log: seq<Response>)
      requires Valid()
      reads nextOutgoing, streams
    {
      forall c: nat :: c < ME_MAX_NUM_CLIENTS ==> Carries(streams[c], nextOutgoing[c], ForClient(log, c))
    }

    constructor ()
      ensures Valid() && Sent([]) && fresh(nextOutgoing) && fresh(streams)
    {
      nextOutgoing := new nat[ME_MAX_NUM_CLIENTS](_ => 1);
      streams := new seq<OMClientResponse>[ME_MAX_NUM_CLIENTS](_ => []);
    }

    method Route(r: Response, ghost log: seq<Response>)
      requires Valid() && Sent(log) && r.ref.client < ME_MAX_NUM_CLIENTS
      modifies nextOutgoing, streams
      ensures Sent(log + [r])
    {
      hide Carries, ForClient;
      var client := r.ref.client;
      forall c: nat | c < ME_MAX_NUM_CLIENTS
        ensures ForClient(log + [r], c) == if client == c then ForClient(log, c) + [r] else ForClient(log, c)
      {
        ForClientOneMore(log, r, c);
      }
      CarriesOneMore(streams[client], nextOutgoing[client], ForClient(log, client), r);
      streams[client] := streams[client] + [OMClientResponse(nextOutgoing[client], r)];
      nextOutgoing[client] := nextOutgoing[client] + 1;
    }

    /** One pass over the responses waiting in the queue. The source insists that every client it
        answers has a socket (order_server.cpp:58-59); `Connections.AcceptedInSequence` shows that every
        client with an accepted request has one. */
    method Drain(queue: seq<Response>, sockets: seq<int>, ghost log: seq<Response>)
      requires Valid() && Sent(log) && Connected(queue, sockets)
      modifies nextOutgoing, streams
      ensures Sent(log + queue)
    {
      hide Carries, ForClient;
      assert log + queue[..0] == log;
      for i := 0 to |queue|
        invariant Sent(log + queue[..i])
      {
        ghost var done := log + queue[..i];
        assert log + queue[..i + 1] == done + [queue[i]];
        Route(queue[i], done);
      }
      assert queue[..|queue|] == queue;
    }
  }

  /** What a gateway lets through of what it receives. */
  function Heard(client: nat, ms: seq<OMClientResponse>): (r: seq<Response>)
    decreases |ms|
  {
    if ms == [] then []
    else
      var before, m := Heard(client, ms[..|ms| - 1]), ms[|ms| - 1];
      if m.response.ref.client == client && m.seqNum == |before| + 1 then before + [m.response] else before
  }

  /** Message `i` is for the client and carries the number. */
  predicate Calls(client: nat, ms: seq<OMClientResponse>, i: nat, num: nat)
    requires i < |ms|
  {
    ms[i].response.ref.client == client && ms[i].seqNum == num
  }

  /** No message from position `i` up to but not including `j` does. */
  ghost predicate NoneCalls(client: nat, ms: seq<OMClientResponse>, i: nat, j: nat, num: nat)
    requires i <= j <= |ms|
  {
    forall k :: i <= k < j ==> !Calls(client, ms, k, num)
  }

  /** Where the search for number `a + 1` starts. */
  function Behind(ks: seq<nat>, a: nat): nat
    requires a <= |ks|
  {
    if a == 0 then 0 else ks[a - 1] + 1
  }

  /** Position `ks[a]` is the first one behind its predecessor with number `a + 1`. */
  ghost predicate PickedAt(client: nat, ms: seq<OMClientResponse>, ks: seq<nat>, a: nat)
    requires a < |ks|
  {
    && Behind(ks, a) <= ks[a] < |ms| && Calls(client, ms, ks[a], a + 1)
    && NoneCalls(client, ms, Behind(ks, a), ks[a], a + 1)
  }

  /** `ks` picks from the messages, one after the other, the first for the client with number 1, the first
      behind that with number 2, and so on for as long as there is one. */
  ghost predicate InTurn(client: nat, ms: seq<OMClientResponse>, ks: seq<nat>) {
    && (forall a :: 0 <= a < |ks| ==> PickedAt(client, ms, ks, a))
    && Behind(ks, |ks|) <= |ms| && NoneCalls(client, ms, Behind(ks, |ks|), |ms|, |ks| + 1)
  }

  lemma InTurnOneMore(client: nat, ms: seq<OMClientResponse>, ks: seq<nat>)
    requires ms != [] && InTurn(client, ms[..|ms| - 1], ks)
    ensures var n := |ms| - 1; InTurn(client, ms, if Calls(client, ms, n, |ks| + 1) then ks + [n] else ks)
  {
    var n := |ms| - 1;
    var ks' := if Calls(client, ms, n, |ks| + 1) then ks + [n] else ks;
    forall a | 0 <= a < |ks'|
      ensures PickedAt(client, ms, ks', a)
    {
      if a < |ks| {
        assert PickedAt(client, ms[..n], ks, a) && Behind(ks', a) == Behind(ks, a);
        NoneLater(client, ms, n, Behind(ks, a), ks[a], a + 1);
      } else {
        NoneLater(client, ms, n, Behind(ks, a), n, a + 1);
      }
    }
    NoneLater(client, ms, n, Behind(ks, |ks|), n, |ks| + 1);
  }

  lemma NoneLater(client: nat, ms: seq<OMClientResponse>, n: nat, i: nat, j: nat, num: nat)
    requires i <= j <= n <= |ms| && NoneCalls(client, ms[..n], i, j, num)
    ensures NoneCalls(client, ms, i, j, num)
  {
    forall k | i <= k < j
      ensures !Calls(client, ms, k, num)
    {
      assert !Calls(client, ms[..n], k, num);
    }
  }

  /** Whatever reaches a gateway, what it lets through is for its own client and numbered 1, 2, 3, ... */
  lemma {:induction false} HeardInTurn(client: nat, ms: seq<OMClientResponse>) returns (ks: seq<nat>)
    ensures InTurn(client, ms, ks) && |Heard(client, ms)| == |ks|
    ensures forall a :: 0 <= a < |ks| ==> ks[a] < |ms| && Heard(client, ms)[a] == ms[ks[a]].response
    decreases |ms|
  {
    hide InTurn;
    ks := [];
    if ms == [] {
      NothingInTurn(client);
    } else {
      var n := |ms| - 1;
      ks := HeardInTurn(client, ms[..n]);
      InTurnOneMore(client, ms, ks);
      if Calls(client, ms, n, |ks| + 1) {
        ks := ks + [n];
      }
    }
  }

  lemma NothingInTurn(client: nat)
    ensures InTurn(client, [], [])
  {
  }

  class OrderGateway {
    const clientId: nat
    var nextOutgoingSeqNum: nat
    var nextExpSeqNum: nat
    var sendBuffer: seq<Byte>
    var incomingResponses: seq<Response>

    constructor (client: nat)
      ensures clientId == client && Streamed([]) && Received([])
    {
      clientId, nextOutgoingSeqNum, nextExpSeqNum := client, 1, 1;
      sendBuffer, incomingResponses := [], [];
    }

    /** The bytes written so far are those of the dequeued requests, numbered from 1. */
    ghost predicate Streamed(requests: seq<OMClientRequest>)
      reads this
    {
      sendBuffer == Bytes(NumberedRequests(requests)) && nextOutgoingSeqNum == |requests| + 1
    }

    /** What has been passed on is what is let through of the messages received so far. */
    ghost predicate Received(ms: seq<OMClientResponse>)
      reads this
    {
      incomingResponses == Heard(clientId, ms) && nextExpSeqNum == |incomingResponses| + 1
    }

    /** One pass over the requests waiting in the queue. */
    method SendRequests(queue: seq<OMClientRequest>, ghost before: seq<OMClientRequest>)
      requires Streamed(before)
      modifies this`nextOutgoingSeqNum, this`sendBuffer
      ensures Streamed(before + queue)
    {
      hide Encode, Bytes, NumberedRequests;
      assert before + queue[..0] == before;
      for i := 0 to |queue|
        invariant Streamed(before + queue[..i])
      {
        ghost var done := before + queue[..i];
        assert before + queue[..i + 1] == done + [queue[i]];
        NumberedOneMore(done, queue[i]);
        sendBuffer := sendBuffer + Encode(queue[i].(seqNum := nextOutgoingSeqNum));
        nextOutgoingSeqNum := nextOutgoingSeqNum + 1;
      }
      assert queue[..|queue|] == queue;
    }

    /** The records of one read, decoded: those for another client or out of sequence are dropped. */
    method RecvCallback(received: seq<OMClientResponse>, ghost before: seq<OMClientResponse>)
      requires Received(before)
      modifies this`nextExpSeqNum, this`incomingResponses
      ensures Received(before + received)
    {
      assert before + received[..0] == before;
      for i := 0 to |received|
        invariant Received(before + received[..i])
      {
        ghost var done := before + received[..i];
        assert before + received[..i + 1] == done + [received[i]];
        assert (done + [received[i]])[..|done + [received[i]]| - 1] == done;
        var m := received[i];
        if m.response.ref.client == clientId && m.seqNum == nextExpSeqNum {
          nextExpSeqNum := nextExpSeqNum + 1;
          incomingResponses := incomingResponses + [m.response];
        }
      }
      assert received[..|received|] == received;
    }
  }

  lemma {:induction false} BytesAppend(a: seq<OMClientRequest>, b: seq<OMClientRequest>)
    ensures Bytes(a + b) == Bytes(a) + Bytes(b)
  {
    hide Encode;
    if a == [] {
      assert a + b == b;
    } else {
      assert (a + b)[0] == a[0] && (a + b)[1..] == a[1..] + b;
      BytesAppend(a[1..], b);
      Regroup(Encode(a[0]), Bytes(a[1..]), Bytes(b));
    }
  }

  lemma NumberedOneMore(requests: seq<OMClientRequest>, r: OMClientRequest)
    ensures Bytes(NumberedRequests(requests + [r]))
        == Bytes(NumberedRequests(requests)) + Encode(r.(seqNum := |requests| + 1))
  {
    hide Encode;
    var m := r.(seqNum := |requests| + 1);
    assert NumberedRequests(requests + [r]) == NumberedRequests(requests) + [m];
    BytesAppend(NumberedRequests(requests), [m]);
    assert [m][1..] == [] && Bytes([m]) == Encode(m) + Bytes([]);
  }

  /** Exactly once and in order on the way back: whatever part of its stream has reached a client's
      gateway, it has passed on exactly that many of the responses sent to the client, from the first. */
  lemma {:induction false} ServerToGateway(log: seq<Response>, client: nat, n: nat)
    requires n <= |ForClient(log, client)|
    ensures Heard(client, NumberedResponses(ForClient(log, client))[..n]) == ForClient(log, client)[..n]
    decreases n
  {
    var rs := ForClient(log, client);
    ForClientOnly(log, client);
    if n > 0 {
      ServerToGateway(log, client, n - 1);
      assert NumberedResponses(rs)[..n][..n - 1] == NumberedResponses(rs)[..n - 1];
      assert rs[..n] == rs[..n - 1] + [rs[n - 1]];
    }
  }
}
