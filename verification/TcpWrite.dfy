/**
 * tcp_write of tcp_main.c: sends a buffer, going on after partial sends.  How much the
 * kernel takes at each call is an arbitrary schedule.
 */
module TcpWrite {
  import opened Words

  /** What send returns at call number i when m bytes are offered. */
  type Schedule = (nat, nat) -> int

  /** A kernel's answer is an error, or takes at least one and at most all of the bytes. */
  ghost predicate Takes(send: Schedule) {
    forall i: nat, m: nat :: m > 0 ==> send(i, m) < 0 || 1 <= send(i, m) <= m
  }

  /** How many of m bytes are taken from call number i on. */
  ghost function Taken(send: Schedule, i: nat, m: nat): (k: nat)
    requires Takes(send)
    ensures k <= m
    decreases m
  {
    if m == 0 || send(i, m) < 0 then 0 else send(i, m) + Taken(send, i + 1, m - send(i, m))
  }

  /** Whether one of those calls fails. */
  ghost predicate Fails(send: Schedule, i: nat, m: nat)
    requires Takes(send)
    decreases m
  {
    m > 0 && (send(i, m) < 0 || Fails(send, i + 1, m - send(i, m)))
  }

  /** What the call that fails returns. */
  ghost function Failure(send: Schedule, i: nat, m: nat): (rc: int)
    requires Takes(send) && Fails(send, i, m)
    ensures rc < 0
    decreases m
  {
    if send(i, m) < 0 then send(i, m) else Failure(send, i + 1, m - send(i, m))
  }

  /** Everything is taken exactly when no call fails. */
  lemma {:induction false} AllTakenIffNoFailure(send: Schedule, i: nat, m: nat)
    requires Takes(send)
    ensures Taken(send, i, m) == m <==> !Fails(send, i, m)
    decreases m
  {
    if m > 0 && send(i, m) >= 0 {
      AllTakenIffNoFailure(send, i + 1, m - send(i, m));
    }
  }

  lemma OneCall(send: Schedule, i: nat, m: nat)
    requires Takes(send) && m > 0
    ensures var sent := send(i, m);
            && sent <= m && sent != 0
            && (sent < 0 ==> Taken(send, i, m) == 0 && Fails(send, i, m) && Failure(send, i, m) == sent)
            && (sent >= 0 ==> Taken(send, i, m) == sent + Taken(send, i + 1, m - sent)
                              && (Fails(send, i, m) <==> Fails(send, i + 1, m - sent))
                              && (Fails(send, i, m) ==> Failure(send, i, m) == Failure(send, i + 1, m - sent)))
  {
  }

  lemma NothingLeft(send: Schedule, i: nat)
    requires Takes(send)
    ensures Taken(send, i, 0) == 0 && !Fails(send, i, 0)
  {
  }

  lemma WireMore(before: seq<Byte>, data: seq<Byte>, offset: nat, sent: nat)
    requires offset + sent <= |data|
    ensures (before + data[..offset]) + data[offset..offset + sent] == before + data[..offset + sent]
  {
  }

  class Socket {
    var writefdSet: set<nat>
    var wire: seq<Byte>

    /** The kernel's send: what it takes goes onto the wire. */
    method Send(buffer: array<Byte>, offset: nat, length: nat, sent: int) returns (r: int)
      requires offset + length <= buffer.Length && sent <= length
      modifies this`wire
      ensures r == sent
      ensures wire == if sent < 0 then old(wire) else old(wire) + buffer[offset..offset + sent]
    {
      if sent >= 0 {
        wire := wire + buffer[offset..offset + sent];
      }
      return sent;
    }

    /**
     * On success the data is on the wire once and in order; on an error a proper prefix of it is.  The value
     * returned on success is not set by the source.
     */
    method TcpWrite(sockFd: nat, data: seq<Byte>, send: Schedule) returns (rc: int, failed: bool)
      requires Takes(send)
      modifies this
      ensures writefdSet == old(writefdSet) - {sockFd}
      ensures failed == Fails(send, 0, |data|)
      ensures wire == old(wire) + data[..Taken(send, 0, |data|)]
      ensures failed ==> rc == Failure(send, 0, |data|)
      ensures if failed then rc < 0 && Taken(send, 0, |data|) < |data| else wire == old(wire) + data
    {
      hide Takes, Taken, Fails, Failure;
      AllTakenIffNoFailure(send, 0, |data|);
      NothingLeft(send, 0);
      assert data[..|data|] == data;
      writefdSet := writefdSet - {sockFd};
      var buffer := new Byte[|data|](i requires 0 <= i < |data| => data[i]);
      assert buffer[..] == data;
      var sentData, offset, dataLen := 0, 0, |data|;
      var calls := 0;
      while sentData != dataLen
        invariant 0 <= offset <= |data| && 0 <= dataLen <= |data|
        invariant buffer[..] == data && writefdSet == old(writefdSet) - {sockFd}
        invariant sentData == 0 || sentData == dataLen
        invariant sentData == dataLen ==> wire == old(wire) + data && !Fails(send, 0, |data|)
        invariant sentData != dataLen ==>
                    && offset + dataLen == |data| && wire == old(wire) + data[..offset]
                    && Taken(send, 0, |data|) == offset + Taken(send, calls, dataLen)
                    && (Fails(send, 0, |data|) <==> Fails(send, calls, dataLen))
                    && (Fails(send, 0, |data|) ==> Failure(send, 0, |data|) == Failure(send, calls, dataLen))
        decreases if sentData == dataLen then 0 else dataLen
      {
        OneCall(send, calls, dataLen);
        sentData := Send(buffer, offset, dataLen, send(calls, dataLen));
        if sentData < 0 {
          return sentData, true;
        }
        WireMore(old(wire), data, offset, sentData);
        if sentData == dataLen {
          NothingLeft(send, calls + 1);
        }
        if sentData < dataLen {
          dataLen := dataLen - sentData;
          offset := offset + sentData;
          sentData := 0;
        }
        calls := calls + 1;
      }
      rc := *;
      failed := false;
    }
  }
}
