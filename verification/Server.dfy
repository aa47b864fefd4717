/** The order server's receive callback over a socket's buffer, proved against `Framing`. */
module Server {
  import opened Common
  import opened Ladder
  import opened Wire
  import opened Framing

  class TCPSocket {
    const fd: int
    const recvBuffer: array<Byte>
    var nextRecvValidIndex: nat

    ghost predicate Valid()
      reads this
    {
      fd != NO_SOCKET && nextRecvValidIndex <= recvBuffer.Length
    }

    /** The bytes received and not yet consumed. */
    ghost function Waiting(): seq<Byte>
      requires Valid()
      reads this, recvBuffer
    {
      recvBuffer[..nextRecvValidIndex]
    }

    constructor (descriptor: int, size: nat)
      requires descriptor != NO_SOCKET
      ensures Valid() && Waiting() == [] && fd == descriptor && recvBuffer.Length == size && fresh(recvBuffer)
    {
      fd, nextRecvValidIndex := descriptor, 0;
      recvBuffer := new Byte[size](_ => 0);
    }

    /** A read from the network, never more than the buffer has room for. */
    method Read(chunk: seq<Byte>)
      requires Valid() && nextRecvValidIndex + |chunk| <= recvBuffer.Length
      modifies this`nextRecvValidIndex, recvBuffer
      ensures Valid() && Waiting() == old(Waiting()) + chunk
    {
      ghost var before := nextRecvValidIndex;
      for i := 0 to |chunk|
        invariant nextRecvValidIndex == before + i
        invariant recvBuffer[..before + i] == old(recvBuffer[..before]) + chunk[..i]
      {
        recvBuffer[nextRecvValidIndex] := chunk[i];
        assert recvBuffer[..before + i + 1] == recvBuffer[..before + i] + [chunk[i]]
            && chunk[..i + 1] == chunk[..i] + [chunk[i]];
        nextRecvValidIndex := nextRecvValidIndex + 1;
      }
      assert chunk[..|chunk|] == chunk;
    }

    /** `memcpy` inside the buffer, which is defined only for regions that do not overlap. */
    method MemCpy(dst: nat, src: nat, len: nat)
      requires src + len <= recvBuffer.Length && dst + len <= src
      modifies recvBuffer
      ensures recvBuffer[dst..dst + len] == old(recvBuffer[src..src + len])
    {
      for k := 0 to len
        invariant recvBuffer[src..] == old(recvBuffer[src..])
        invariant recvBuffer[dst..dst + k] == old(recvBuffer[src..src + k])
      {
        ghost var from := old(recvBuffer[..]);
        assert recvBuffer[src + k] == recvBuffer[src..][k];
        recvBuffer[dst + k] := recvBuffer[src + k];
        assert recvBuffer[dst..dst + k + 1] == recvBuffer[dst..dst + k] + [from[src + k]];
        assert from[src..src + k + 1] == from[src..src + k] + [from[src + k]];
      }
    }
  }

  class OrderServer {
    const expected: array<nat>
    const sockets: array<int>
    var pending: seq<OMClientRequest>

    ghost predicate Valid()
      reads this
    {
      expected.Length == ME_MAX_NUM_CLIENTS && sockets.Length == ME_MAX_NUM_CLIENTS
    }

    ghost function State(): (s: Intake)
      requires Valid()
      reads this, expected, sockets
      ensures s.Sized()
    {
      Intake(expected[..], sockets[..], pending)
    }

    constructor ()
      ensures Valid() && State() == NewIntake() && fresh(expected) && fresh(sockets)
    {
      expected := new nat[ME_MAX_NUM_CLIENTS](_ => 1);
      sockets := new int[ME_MAX_NUM_CLIENTS](_ => NO_SOCKET);
      pending := [];
    }

    /** Passes one request through the socket and sequence checks to the sequencer. */
    method OnRequest(socket: int, m: OMClientRequest)
      requires Valid()
      modifies this`pending, expected, sockets
      ensures Valid() && State() == Take(old(State()), socket, m)
    {
      if m.client < ME_MAX_NUM_CLIENTS {
        if sockets[m.client] == NO_SOCKET {
          sockets[m.client] := socket;
        }
        if sockets[m.client] == socket && m.seqNum == expected[m.client] {
          expected[m.client] := expected[m.client] + 1;
          pending := pending + [m];
        }
      }
    }

    /** Decodes the complete records in the buffer, and moves the rest to its front. */
    method RecvCallback(socket: TCPSocket)
      requires Valid() && socket.Valid() && socket.recvBuffer as object != expected
      requires socket.recvBuffer as object != sockets
      modifies this`pending, expected, sockets, socket`nextRecvValidIndex, socket.recvBuffer
      ensures Valid() && socket.Valid()
      ensures State() == TakeAll(old(State()), socket.fd, Messages(old(socket.Waiting())))
      ensures socket.Waiting() == Remainder(old(socket.Waiting()))
    {
      hide Decode, Take;
      ghost var b, before := socket.Waiting(), State();
      if socket.nextRecvValidIndex >= RECORD {
        var i := 0;
        while i + RECORD <= socket.nextRecvValidIndex
          invariant 0 <= i <= |b| == socket.nextRecvValidIndex == old(socket.nextRecvValidIndex)
          invariant Valid() && socket.recvBuffer[..] == old(socket.recvBuffer[..])
          invariant Messages(b) == Messages(b[..i]) + Messages(b[i..]) && Remainder(b[i..]) == Remainder(b)
          invariant State() == TakeAll(before, socket.fd, Messages(b[..i])) && Remainder(b[..i]) == []
          invariant i < RECORD ==> i == 0
        {
          SliceOfPrefix(socket.recvBuffer[..], socket.nextRecvValidIndex, i, i + RECORD);
          OneMore(b, i, before, socket.fd);
          OnRequest(socket.fd, Decode(socket.recvBuffer[i..i + RECORD]));
          i := i + RECORD;
        }
        LastPart(b, i);
        socket.MemCpy(0, i, socket.nextRecvValidIndex - i);
        assert old(socket.recvBuffer[..])[i..|b|] == b[i..];
        socket.nextRecvValidIndex := socket.nextRecvValidIndex - i;
      }
    }
  }

  lemma SliceOfPrefix(s: seq<Byte>, n: nat, i: nat, j: nat)
    requires i <= j <= n <= |s|
    ensures s[..n][i..j] == s[i..j]
  {
  }

  /** One more record is decoded behind those in front of position `i`. */
  lemma OneMore(b: seq<Byte>, i: nat, s: Intake, socket: int)
    requires i + RECORD <= |b| && s.Sized() && Remainder(b[..i]) == []
    requires Messages(b) == Messages(b[..i]) + Messages(b[i..]) && Remainder(b[i..]) == Remainder(b)
    ensures var m, j := Decode(b[i..i + RECORD]), i + RECORD;
            && Messages(b[..j]) == Messages(b[..i]) + [m] && Remainder(b[..j]) == []
            && Messages(b) == Messages(b[..j]) + Messages(b[j..]) && Remainder(b[j..]) == Remainder(b)
            && TakeAll(s, socket, Messages(b[..j])) == Take(TakeAll(s, socket, Messages(b[..i])), socket, m)
  {
    hide Decode, Take;
    var r, j := b[i..i + RECORD], i + RECORD;
    assert b[..j] == b[..i] + r && [] + r == r;
    CutLater(b[..i], r);
    assert r[..RECORD] == r && r[RECORD..] == [];
    assert b[i..][..RECORD] == r && b[i..][RECORD..] == b[j..];
    Regroup(Messages(b[..i]), [Decode(r)], Messages(b[j..]));
    TakeAppend(s, socket, Messages(b[..i]), [Decode(r)]);
    assert [Decode(r)][..0] == [];
  }

  /** When no complete record is left, what is left is the remainder, and it is shorter than what was decoded. */
  lemma LastPart(b: seq<Byte>, i: nat)
    requires i <= |b| < i + RECORD && RECORD <= |b| && (i < RECORD ==> i == 0)
    requires Messages(b) == Messages(b[..i]) + Messages(b[i..]) && Remainder(b[i..]) == Remainder(b)
    ensures Messages(b[..i]) == Messages(b) && b[i..] == Remainder(b) && |b| - i < RECORD <= i
  {
    assert Messages(b[..i]) + [] == Messages(b[..i]);
  }
}
