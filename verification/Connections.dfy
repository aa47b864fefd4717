/** The order server as it listens to many connections at once: whatever way their reads interleave,
    each client's requests come through once and in order. */
module Connections {
  import opened Common
  import opened Ladder
  import opened Wire
  import opened Framing

  /** One read from one of the server's sockets. */
  datatype Read = Read(socket: int, chunk: seq<Byte>)

  /** The bytes waiting in each socket's buffer, and the tables and accepted requests of the server. */
  datatype Hub = Hub(waiting: map<int, seq<Byte>>, intake: Intake)
  {
    function Waiting(socket: int): seq<Byte> {
      if socket in waiting then waiting[socket] else []
    }
  }

  /** One read and the callback that follows it. */
  function OnRead(h: Hub, r: Read): Hub
    requires h.intake.Sized()
  {
    var all := h.Waiting(r.socket) + r.chunk;
    Hub(h.waiting[r.socket := Remainder(all)], TakeAll(h.intake, r.socket, Messages(all)))
  }

  /** The server after these reads. */
  function OnReads(rs: seq<Read>): (h: Hub)
    ensures h.intake.Sized()
    decreases |rs|
  {
    if rs == [] then Hub(map[], NewIntake()) else OnRead(OnReads(rs[..|rs| - 1]), rs[|rs| - 1])
  }

  /** All bytes read from one socket. */
  function Stream(rs: seq<Read>, socket: int): seq<Byte>
    decreases |rs|
  {
    if rs == [] then []
    else
      var before, r := Stream(rs[..|rs| - 1], socket), rs[|rs| - 1];
      if r.socket == socket then before + r.chunk else before
  }

  /** The messages that name one client. */
  function By(ms: seq<OMClientRequest>, client: nat): seq<OMClientRequest>
    decreases |ms|
  {
    if ms == [] then []
    else
      var m := ms[|ms| - 1];
      By(ms[..|ms| - 1], client) + (if m.client == client then [m] else [])
  }

  /** Of these messages, each one that carries the next number, from 1. */
  function Sieve(ms: seq<OMClientRequest>): seq<OMClientRequest>
    decreases |ms|
  {
    if ms == [] then []
    else
      var before, m := Sieve(ms[..|ms| - 1]), ms[|ms| - 1];
      if m.seqNum == |before| + 1 then before + [m] else before
  }

  ghost predicate NoneBy(ms: seq<OMClientRequest>, client: nat) {
    forall i :: 0 <= i < |ms| ==> ms[i].client != client
  }

  /** No message that names the client comes on any other socket. */
  ghost predicate OwnSocket(rs: seq<Read>, client: nat, socket: int) {
    forall other: int :: other != socket ==> NoneBy(Messages(Stream(rs, other)), client)
  }

  // ----- the buffers -----

  /** However a socket's stream is split and whatever is read in between, what waits in its buffer is
      the remainder of its whole stream. */
  lemma {:induction false} WaitingIsRemainder(rs: seq<Read>, socket: int)
    ensures OnReads(rs).Waiting(socket) == Remainder(Stream(rs, socket))
    decreases |rs|
  {
    hide TakeAll, Messages;
    if rs != [] {
      var before, r := rs[..|rs| - 1], rs[|rs| - 1];
      WaitingIsRemainder(before, socket);
      if r.socket == socket {
        CutLater(Stream(before, socket), r.chunk);
      }
    }
  }

  /** The messages a read completes are those its socket's stream gains by it. */
  lemma ReadCompletes(rs: seq<Read>, r: Read)
    ensures var h, gained := OnReads(rs), Messages(Remainder(Stream(rs, r.socket)) + r.chunk);
            && OnReads(rs + [r]).intake == TakeAll(h.intake, r.socket, gained)
            && Messages(Stream(rs + [r], r.socket)) == Messages(Stream(rs, r.socket)) + gained
  {
    hide TakeAll, Messages;
    assert (rs + [r])[..|rs + [r]| - 1] == rs;
    WaitingIsRemainder(rs, r.socket);
    CutLater(Stream(rs, r.socket), r.chunk);
  }

  lemma StreamElsewhere(rs: seq<Read>, r: Read, socket: int)
    requires r.socket != socket
    ensures Stream(rs + [r], socket) == Stream(rs, socket)
  {
    assert (rs + [r])[..|rs + [r]| - 1] == rs;
  }

  // ----- in sequence, whatever arrives -----

  ghost predicate RealSockets(rs: seq<Read>) {
    forall i :: 0 <= i < |rs| ==> rs[i].socket != NO_SOCKET
  }

  /** Whatever arrives on whatever sockets, the requests let through for each client carry the numbers
      1, 2, 3, ... without gap or repetition; and the response loop, which insists on a socket for every
      client it answers (order_server.cpp:58-59), finds one for every client with an accepted request. */
  lemma {:induction false} AcceptedInSequence(rs: seq<Read>)
    requires RealSockets(rs)
    ensures InSequence(OnReads(rs).intake)
    decreases |rs|
  {
    hide InSequence, Messages;
    if rs == [] {
      NewInSequence();
    } else {
      var before, r := OnReads(rs[..|rs| - 1]), rs[|rs| - 1];
      AcceptedInSequence(rs[..|rs| - 1]);
      TakeAllKeepsSequence(before.intake, r.socket, Messages(before.Waiting(r.socket) + r.chunk));
    }
  }

  lemma NewInSequence()
    ensures NewIntake().Sized() && InSequence(NewIntake())
  {
  }

  // ----- one client among many -----

  lemma {:induction false} ByAppend(a: seq<OMClientRequest>, b: seq<OMClientRequest>, client: nat)
    ensures By(a + b, client) == By(a, client) + By(b, client)
    decreases |b|
  {
    if b == [] {
      assert a + b == a;
    } else {
      var n := |b| - 1;
      assert (a + b)[..|a + b| - 1] == a + b[..n];
      ByAppend(a, b[..n], client);
      Regroup(By(a, client), By(b[..n], client), if b[n].client == client then [b[n]] else []);
    }
  }

  /** Of the client's messages `told` the server has accepted those that carried the next number. */
  ghost predicate Heard(s: Intake, client: nat, socket: int, told: seq<OMClientRequest>)
    requires s.Sized() && client < ME_MAX_NUM_CLIENTS
  {
    && By(s.accepted, client) == Sieve(told) && s.expected[client] == |Sieve(told)| + 1
    && (s.sockets[client] == NO_SOCKET || s.sockets[client] == socket)
  }

  lemma TakeHears(s: Intake, client: nat, socket: int, told: seq<OMClientRequest>, m: OMClientRequest)
    requires s.Sized() && client < ME_MAX_NUM_CLIENTS && Heard(s, client, socket, told) && m.client == client
    requires socket != NO_SOCKET
    ensures Heard(Take(s, socket, m), client, socket, told + [m])
  {
    var s' := Take(s, socket, m);
    assert (told + [m])[..|told + [m]| - 1] == told;
    if s'.accepted != s.accepted {
      assert s'.accepted[..|s'.accepted| - 1] == s.accepted;
    }
  }

  lemma TakeOther(s: Intake, client: nat, socket: int, told: seq<OMClientRequest>, m: OMClientRequest, on: int)
    requires s.Sized() && client < ME_MAX_NUM_CLIENTS && Heard(s, client, socket, told) && m.client != client
    ensures Heard(Take(s, on, m), client, socket, told)
  {
    var s' := Take(s, on, m);
    if s'.accepted != s.accepted {
      assert s'.accepted[..|s'.accepted| - 1] == s.accepted;
    }
  }

  /** Messages on the client's socket, or on another where none of them names the client. */
  lemma {:induction false} TakeAllHears(s: Intake, client: nat, socket: int, told: seq<OMClientRequest>, on: int,
                                        ms: seq<OMClientRequest>)
    requires s.Sized() && client < ME_MAX_NUM_CLIENTS && Heard(s, client, socket, told) && socket != NO_SOCKET
    requires on == socket || NoneBy(ms, client)
    ensures Heard(TakeAll(s, on, ms), client, socket, told + By(ms, client))
    decreases |ms|
  {
    hide Take, Heard;
    if ms == [] {
      assert told + [] == told;
    } else {
      var n := |ms| - 1;
      var before := told + By(ms[..n], client);
      TakeAllHears(s, client, socket, told, on, ms[..n]);
      if ms[n].client == client {
        TakeHears(TakeAll(s, on, ms[..n]), client, socket, before, ms[n]);
        Regroup(told, By(ms[..n], client), [ms[n]]);
      } else {
        TakeOther(TakeAll(s, on, ms[..n]), client, socket, before, ms[n], on);
        assert By(ms[..n], client) + [] == By(ms[..n], client);
      }
    }
  }

  lemma {:induction false} ByNone(ms: seq<OMClientRequest>, client: nat)
    requires NoneBy(ms, client)
    ensures By(ms, client) == []
    decreases |ms|
  {
    if ms != [] {
      ByNone(ms[..|ms| - 1], client);
    }
  }

  lemma NoneByParts(a: seq<OMClientRequest>, b: seq<OMClientRequest>, client: nat)
    requires NoneBy(a + b, client)
    ensures NoneBy(a, client) && NoneBy(b, client)
  {
    assert forall i :: 0 <= i < |a| ==> (a + b)[i] == a[i];
    assert forall i :: 0 <= i < |b| ==> (a + b)[|a| + i] == b[i];
  }

  lemma OwnSocketBefore(rs: seq<Read>, r: Read, client: nat, socket: int)
    requires OwnSocket(rs + [r], client, socket)
    ensures OwnSocket(rs, client, socket)
    ensures r.socket != socket ==> NoneBy(Messages(Remainder(Stream(rs, r.socket)) + r.chunk), client)
  {
    hide Messages, NoneBy, Stream, OnReads;
    ReadCompletes(rs, r);
    forall other: int | other != socket
      ensures NoneBy(Messages(Stream(rs, other)), client)
    {
      assert NoneBy(Messages(Stream(rs + [r], other)), client);
      if other == r.socket {
        NoneByParts(Messages(Stream(rs, other)), Messages(Remainder(Stream(rs, other)) + r.chunk), client);
      } else {
        StreamElsewhere(rs, r, other);
      }
    }
    if r.socket != socket {
      assert NoneBy(Messages(Stream(rs + [r], r.socket)), client);
      NoneByParts(Messages(Stream(rs, r.socket)), Messages(Remainder(Stream(rs, r.socket)) + r.chunk), client);
    }
  }

  /** A client that nobody else speaks for is heard as if it were alone: whatever is read from the other
      sockets in between, and however its own stream is split, the server has accepted exactly those of
      its messages that carried the next number. */
  lemma {:induction false} HeardAsIfAlone(rs: seq<Read>, client: nat, socket: int)
    requires client < ME_MAX_NUM_CLIENTS && socket != NO_SOCKET && OwnSocket(rs, client, socket)
    ensures Heard(OnReads(rs).intake, client, socket, By(Messages(Stream(rs, socket)), client))
    decreases |rs|
  {
    hide Heard, OwnSocket, Messages, TakeAll;
    if rs == [] {
      NothingHeard(client, socket);
    } else {
      var before, r := rs[..|rs| - 1], rs[|rs| - 1];
      assert rs == before + [r];
      OwnSocketBefore(before, r, client, socket);
      HeardAsIfAlone(before, client, socket);
      var gained := Messages(Remainder(Stream(before, r.socket)) + r.chunk);
      var told := By(Messages(Stream(before, socket)), client);
      ReadCompletes(before, r);
      TakeAllHears(OnReads(before).intake, client, socket, told, r.socket, gained);
      if r.socket == socket {
        ByAppend(Messages(Stream(before, socket)), gained, client);
      } else {
        ByNone(gained, client);
        StreamElsewhere(before, r, socket);
        assert told + [] == told;
      }
    }
  }

  lemma NothingHeard(client: nat, socket: int)
    requires client < ME_MAX_NUM_CLIENTS
    ensures Messages([]) == [] && Heard(NewIntake(), client, socket, [])
  {
  }

  // ----- two connections for one client -----

  /** A message, and the socket on which it was completed. */
  datatype Completed = Completed(socket: int, m: OMClientRequest)

  function CompletedOn(socket: int, ms: seq<OMClientRequest>): (xs: seq<Completed>)
    ensures |xs| == |ms| && forall i :: 0 <= i < |ms| ==> xs[i] == Completed(socket, ms[i])
  {
    seq(|ms|, i requires 0 <= i < |ms| => Completed(socket, ms[i]))
  }

  /** All messages in the order in which they arrive complete. */
  function Completions(rs: seq<Read>): seq<Completed>
    decreases |rs|
  {
    if rs == [] then []
    else
      var before, r := rs[..|rs| - 1], rs[|rs| - 1];
      Completions(before) + CompletedOn(r.socket, Messages(OnReads(before).Waiting(r.socket) + r.chunk))
  }

  function TakeEach(xs: seq<Completed>): (s: Intake)
    ensures s.Sized()
    decreases |xs|
  {
    if xs == [] then NewIntake() else Take(TakeEach(xs[..|xs| - 1]), xs[|xs| - 1].socket, xs[|xs| - 1].m)
  }

  lemma {:induction false} TakeEachMore(xs: seq<Completed>, socket: int, ms: seq<OMClientRequest>)
    ensures TakeEach(xs + CompletedOn(socket, ms)) == TakeAll(TakeEach(xs), socket, ms)
    decreases |ms|
  {
    hide Take;
    var all := xs + CompletedOn(socket, ms);
    if ms == [] {
      assert all == xs;
    } else {
      TakeEachMore(xs, socket, ms[..|ms| - 1]);
      assert all[..|all| - 1] == xs + CompletedOn(socket, ms[..|ms| - 1]);
    }
  }

  lemma {:induction false} ReadsTakeCompletions(rs: seq<Read>)
    ensures OnReads(rs).intake == TakeEach(Completions(rs))
    decreases |rs|
  {
    hide TakeAll, Messages, TakeEach;
    if rs == [] {
      NothingTaken();
    } else {
      var before, r := rs[..|rs| - 1], rs[|rs| - 1];
      ReadsTakeCompletions(before);
      TakeEachMore(Completions(before), r.socket, Messages(OnReads(before).Waiting(r.socket) + r.chunk));
    }
  }

  lemma NothingTaken()
    ensures TakeEach([]) == NewIntake()
  {
  }

  /** The socket of the first message that names the client. */
  function FirstSocket(xs: seq<Completed>, client: nat): int {
    if xs == [] then NO_SOCKET
    else if xs[0].m.client == client then xs[0].socket
    else FirstSocket(xs[1..], client)
  }

  /** The messages on one socket that name the client. */
  function NamedOn(xs: seq<Completed>, client: nat, socket: int): seq<OMClientRequest>
    decreases |xs|
  {
    if xs == [] then []
    else
      var before, x := NamedOn(xs[..|xs| - 1], client, socket), xs[|xs| - 1];
      if x.socket == socket && x.m.client == client then before + [x.m] else before
  }

  lemma {:induction false} FirstSocketStays(xs: seq<Completed>, x: Completed, client: nat)
    requires forall i :: 0 <= i < |xs| ==> xs[i].socket != NO_SOCKET
    ensures FirstSocket(xs + [x], client)
         == if FirstSocket(xs, client) != NO_SOCKET then FirstSocket(xs, client)
            else if x.m.client == client then x.socket else NO_SOCKET
  {
    if xs == [] {
      assert xs + [x] == [x] && [x][1..] == [];
    } else {
      assert (xs + [x])[1..] == xs[1..] + [x] && (xs + [x])[0] == xs[0];
      FirstSocketStays(xs[1..], x, client);
    }
  }

  lemma {:induction false} NobodySpoke(xs: seq<Completed>, client: nat, socket: int)
    requires FirstSocket(xs, client) == NO_SOCKET && forall i :: 0 <= i < |xs| ==> xs[i].socket != NO_SOCKET
    ensures NamedOn(xs, client, socket) == []
    decreases |xs|
  {
    if xs != [] {
      var n := |xs| - 1;
      assert xs == xs[..n] + [xs[n]];
      FirstSocketStays(xs[..n], xs[n], client);
      NobodySpoke(xs[..n], client, socket);
    }
  }

  /** Whoever speaks for a client, and on whatever sockets: what has been accepted for it came on the socket
      that named it first, and is, of the messages that named it there, each one that carried the next number. */
  lemma {:induction false} OnlyTheFirstSocket(xs: seq<Completed>, client: nat)
    requires client < ME_MAX_NUM_CLIENTS && forall i :: 0 <= i < |xs| ==> xs[i].socket != NO_SOCKET
    ensures var s, first := TakeEach(xs), FirstSocket(xs, client);
            && By(s.accepted, client) == Sieve(NamedOn(xs, client, first)) && s.sockets[client] == first
            && s.expected[client] == |Sieve(NamedOn(xs, client, first))| + 1
    decreases |xs|
  {
    if xs != [] {
      hide Take;
      var n := |xs| - 1;
      var before, x := xs[..n], xs[n];
      assert xs == before + [x];
      OnlyTheFirstSocket(before, client);
      FirstSocketStays(before, x, client);
      if FirstSocket(before, client) == NO_SOCKET {
        NobodySpoke(before, client, NO_SOCKET);
        NobodySpoke(before, client, x.socket);
      }
      TakeOne(TakeEach(before), x, client, NamedOn(before, client, FirstSocket(xs, client)));
    }
  }

  lemma TakeOne(s: Intake, x: Completed, client: nat, told: seq<OMClientRequest>)
    requires s.Sized() && client < ME_MAX_NUM_CLIENTS && x.socket != NO_SOCKET
    requires By(s.accepted, client) == Sieve(told) && s.expected[client] == |Sieve(told)| + 1
    ensures var s' := Take(s, x.socket, x.m);
            var first := if s.sockets[client] == NO_SOCKET && x.m.client == client then x.socket else s.sockets[client];
            var told' := if x.m.client == client && x.socket == first then told + [x.m] else told;
            && s'.sockets[client] == first && By(s'.accepted, client) == Sieve(told')
            && s'.expected[client] == |Sieve(told')| + 1
  {
    var s' := Take(s, x.socket, x.m);
    assert (told + [x.m])[..|told|] == told;
    if s'.accepted != s.accepted {
      assert s'.accepted[..|s'.accepted| - 1] == s.accepted;
    }
  }

  lemma {:induction false} CompletionsAreReal(rs: seq<Read>)
    requires RealSockets(rs)
    ensures forall i :: 0 <= i < |Completions(rs)| ==> Completions(rs)[i].socket != NO_SOCKET
    decreases |rs|
  {
    hide Messages;
    if rs != [] {
      CompletionsAreReal(rs[..|rs| - 1]);
    }
  }

  /** The same for any reads from any sockets. */
  lemma SpokenForOnce(rs: seq<Read>, client: nat)
    requires RealSockets(rs) && client < ME_MAX_NUM_CLIENTS
    ensures var s, first := OnReads(rs).intake, FirstSocket(Completions(rs), client);
            By(s.accepted, client) == Sieve(NamedOn(Completions(rs), client, first)) && s.sockets[client] == first
  {
    hide TakeEach;
    ReadsTakeCompletions(rs);
    CompletionsAreReal(rs);
    OnlyTheFirstSocket(Completions(rs), client);
  }

  // ----- gateways at the other ends -----

  /** Every socket's stream so far is part of what one gateway wrote, and no two speak for one client. */
  ghost predicate FromGateways(rs: seq<Read>, clients: map<int, nat>, requests: map<int, seq<OMClientRequest>>) {
    && clients.Keys == requests.Keys && NO_SOCKET !in clients
    && (forall s, s' :: s in clients && s' in clients && s != s' ==> clients[s] != clients[s'])
    && (forall s :: s in clients ==> WrittenBy(Stream(rs, s), clients[s], requests[s]))
    && (forall s: int :: s !in clients ==> Stream(rs, s) == [])
  }

  /** `b` is part of what the gateway of `client` makes of these requests. */
  ghost predicate WrittenBy(b: seq<Byte>, client: nat, requests: seq<OMClientRequest>) {
    && AllStorable(NumberedRequests(requests)) && b <= Bytes(NumberedRequests(requests))
    && forall i :: 0 <= i < |requests| ==> requests[i].client == client
  }

  /** What a part of a gateway's stream says: the first requests that it dequeued, all its client's. */
  lemma WrittenSays(b: seq<Byte>, client: nat, requests: seq<OMClientRequest>)
    requires WrittenBy(b, client, requests)
    ensures |b| / RECORD <= |requests| && Messages(b) == NumberedRequests(requests)[..|b| / RECORD]
    ensures forall i :: 0 <= i < |Messages(b)| ==> Messages(b)[i].client == client && Messages(b)[i].seqNum == i + 1
  {
    PrefixOfStream(NumberedRequests(requests), |b|);
    assert b == Bytes(NumberedRequests(requests))[..|b|];
  }

  lemma {:induction false} NumberedPass(ms: seq<OMClientRequest>, client: nat)
    requires forall i :: 0 <= i < |ms| ==> ms[i].client == client && ms[i].seqNum == i + 1
    ensures By(ms, client) == ms && Sieve(ms) == ms
    decreases |ms|
  {
    if ms != [] {
      NumberedPass(ms[..|ms| - 1], client);
    }
  }

  lemma GatewaysKeepApart(rs: seq<Read>, clients: map<int, nat>, requests: map<int, seq<OMClientRequest>>, socket: int)
    requires FromGateways(rs, clients, requests) && socket in clients
    ensures OwnSocket(rs, clients[socket], socket)
  {
    hide Messages;
    forall other: int | other != socket
      ensures NoneBy(Messages(Stream(rs, other)), clients[socket])
    {
      if other in clients {
        WrittenSays(Stream(rs, other), clients[other], requests[other]);
      } else {
        NothingHeard(0, socket);
      }
    }
  }

  /** Exactly once and in order, end to end, for every client at once: gateways number the requests they
      dequeue and stream them; whatever parts of their streams have arrived, in whatever reads and
      interleaving, the server has accepted for each client exactly the requests that have arrived
      complete, which are the first ones its gateway dequeued. */
  lemma GatewayToServer(rs: seq<Read>, clients: map<int, nat>, requests: map<int, seq<OMClientRequest>>, socket: int)
    requires FromGateways(rs, clients, requests) && socket in clients && clients[socket] < ME_MAX_NUM_CLIENTS
    ensures var n, s := |Stream(rs, socket)| / RECORD, OnReads(rs).intake;
            && socket in requests && n <= |requests[socket]|
            && By(s.accepted, clients[socket]) == NumberedRequests(requests[socket])[..n]
            && s.expected[clients[socket]] == n + 1
  {
    hide Messages, OwnSocket, TakeAll;
    assert requests.Keys == clients.Keys;
    GatewaysKeepApart(rs, clients, requests, socket);
    HeardAsIfAlone(rs, clients[socket], socket);
    WrittenSays(Stream(rs, socket), clients[socket], requests[socket]);
    NumberedPass(Messages(Stream(rs, socket)), clients[socket]);
  }
}
