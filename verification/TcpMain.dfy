/**
 * The functions of tcp_main.c that update g_tcp_ctx_main, and the callback of
 * http_main.c.  What the kernel answers is passed in; what it has open, and the
 * callbacks made so far, are kept beside the state.
 */
module TcpMain {
  import opened Words
  import opened TcpModel
  import opened TcpCreate
  import opened TcpSession

  datatype Msg = UnknownReq | NewConnectionReq | CloseConnectionReq | DataReceivedReq | DataSentReq

  /** The states the event loop is entered in: the invariant holds, or nothing is there to be scanned. */
  ghost predicate Runnable<H>(s: Server<H>) {
    Shape(s) && (Inv(s) || s.fdMax < 3)
  }

  /** The state before main. */
  function Start<H>(blank: H): Server<H> {
    Server(seq(TCP_MAX_CTX, _ => Entry(Err, 0, 0, false)), {}, {}, 0, {0, 1, 2}, seq(HTTP_CTX, _ => blank), [])
  }

  class TcpContext<H> {
    const ctx: array<Entry>
    const http: array<H>
    const parse: Parser<H>
    var readfdSet: set<nat>
    var writefdSet: set<nat>
    var fdMax: int
    ghost var open: set<nat>
    ghost var log: seq<Event<H>>

    ghost predicate Sized()
      reads this
    {
      ctx.Length == TCP_MAX_CTX && http.Length == HTTP_CTX && fdMax < TCP_MAX_CTX && (ctx as object) != http
    }

    ghost function Model(): Server<H>
      reads this, ctx, http
    {
      Server(ctx[..], readfdSet, writefdSet, fdMax, open, http[..], log)
    }

    /** The zeroed globals, and the descriptors a process starts with. */
    constructor (parse: Parser<H>, blank: H)
      ensures Sized() && fresh(ctx) && fresh(http) && this.parse == parse
      ensures Model() == Start(blank)
    {
      this.parse := parse;
      ctx := new Entry[TCP_MAX_CTX](_ => Entry(Err, 0, 0, false));
      http := new H[HTTP_CTX](_ => blank);
      readfdSet, writefdSet, fdMax := {}, {}, 0;
      open, log := {0, 1, 2}, [];
    }

    // ------------------------------------------------------------ interest sets

    method SetReadFd(fd: nat)
      modifies this`readfdSet
      ensures readfdSet == old(readfdSet) + {fd}
    {
      readfdSet := readfdSet + {fd};
    }

    method ClrReadFd(fd: nat)
      modifies this`readfdSet
      ensures readfdSet == old(readfdSet) - {fd}
    {
      readfdSet := readfdSet - {fd};
    }

    method SetWriteFd(fd: nat)
      modifies this`writefdSet
      ensures writefdSet == old(writefdSet) + {fd}
    {
      writefdSet := writefdSet + {fd};
    }

    method ClrWriteFd(fd: nat)
      modifies this`writefdSet
      ensures writefdSet == old(writefdSet) - {fd}
    {
      writefdSet := writefdSet - {fd};
    }

    method CloseConn(fd: nat)
      requires Sized() && fd < TCP_MAX_CTX
      modifies this`readfdSet, this`open, ctx
      ensures Sized() && log == old(log)
      ensures Model() == CloseConnection(old(Model()), fd).(log := log)
      ensures readfdSet == old(readfdSet) - {fd} && open == old(open) - {fd}
      ensures ctx[..] == old(ctx[..])[fd := old(ctx[fd]).(fdState := Released)]
    {
      ClrReadFd(fd);
      ctx[fd] := ctx[fd].(fdState := Released);
      open := open - {fd};
    }

    // -------------------------------------------------------------- the callback

    /** tcp_process_request_cb, called through the pointer that entry via holds. */
    method ProcessRequestCb(via: nat, fd: nat, msg: Msg, data: seq<Byte>)
      requires Sized() && via < TCP_MAX_CTX && ctx[via].registered && fd < TCP_MAX_CTX
      modifies this`readfdSet, this`writefdSet, this`open, this`log, ctx, http
      ensures Sized()
      ensures Model() == match msg
                         case NewConnectionReq => NewConnection(old(Model()), via, fd)
                         case CloseConnectionReq => CloseConnection(old(Model()), fd)
                         case DataReceivedReq => DataReceived(old(Model()), fd, data, parse)
                         case DataSentReq => DataSent(old(Model()), fd)
                         case UnknownReq => old(Model())
      ensures match msg
              case NewConnectionReq => readfdSet == old(readfdSet) + {fd} && writefdSet == old(writefdSet)
              case CloseConnectionReq => readfdSet == old(readfdSet) - {fd} && ctx[fd].fdState == Released
              case DataReceivedReq => readfdSet == old(readfdSet) - {fd} && writefdSet == old(writefdSet) + {fd}
                                      && http[..] == old(http[..])[fd := parse(old(http[fd]), data)]
              case DataSentReq => readfdSet == old(readfdSet) + {fd} && writefdSet == old(writefdSet) - {fd}
                                  && http[..] == old(http[..])
              case UnknownReq => true
    {
      match msg {
        case NewConnectionReq =>
          log := log + [New(via, fd)];
          SetReadFd(fd);
        case DataReceivedReq =>
          log := log + [Received(fd, data)];
          ClrReadFd(fd);
          http[fd] := parse(http[fd], data);
          SetWriteFd(fd);
        case CloseConnectionReq =>
          log := log + [Close(fd)];
          CloseConn(fd);
        case DataSentReq =>
          log := log + [Sent(fd, http[fd])];
          ClrWriteFd(fd);
          SetReadFd(fd);
        case UnknownReq =>
      }
    }

    // ------------------------------------------------------------------ one pass

    method TcpAccept(accepted: nat) returns (sockFd: nat)
      requires Sized() && accepted < TCP_MAX_CTX
      modifies this`fdMax, this`open, ctx
      ensures Sized() && sockFd == accepted
      ensures Model() == Accept(old(Model()), accepted)
      ensures ctx[..] == old(ctx[..])[accepted := old(ctx[accepted]).(auxFd := accepted, fdState := Connected)]
      ensures fdMax == (if old(fdMax) < accepted then accepted else old(fdMax)) && open == old(open) + {accepted}
    {
      sockFd := accepted;
      open := open + {sockFd};
      ctx[sockFd] := ctx[sockFd].(auxFd := sockFd, fdState := Connected);
      if fdMax < sockFd {
        fdMax := sockFd;
      }
    }

    /** The loop body of tcp_process_request. */
    method ProcessFd(fdIdx: nat, rd: set<nat>, wr: set<nat>, answer: Answer)
      requires Sized() && Inv(Model()) && Current(Model(), rd, wr, fdIdx)
      requires fdIdx < TCP_MAX_CTX && Fits(Model(), rd, fdIdx, answer)
      modifies this`readfdSet, this`writefdSet, this`fdMax, this`open, this`log, ctx, http
      ensures Sized() && Model() == Visit(old(Model()), rd, wr, fdIdx, answer, parse)
    {
      hide Inv, Current;
      InterestSets(Model());
      CurrentHere(Model(), rd, wr, fdIdx);
      if fdIdx in rd {
        if ctx[fdIdx].fdState == Listen && fdIdx == ctx[fdIdx].listenFd {
          var auxFd := TcpAccept(answer.accepted);
          ProcessRequestCb(fdIdx, auxFd, NewConnectionReq, []);
          ctx[auxFd] := ctx[auxFd].(registered := ctx[fdIdx].registered);
        } else if ctx[fdIdx].fdState == Connected && fdIdx == ctx[fdIdx].auxFd {
          if answer.received == Bytes([]) {
            ProcessRequestCb(fdIdx, fdIdx, CloseConnectionReq, []);
          } else {
            ProcessRequestCb(fdIdx, fdIdx, DataReceivedReq,
                             if answer.received.Failed? then [] else answer.received.data);
          }
        }
      } else if fdIdx in wr {
        ProcessRequestCb(fdIdx, fdIdx, DataSentReq, []);
      }
    }

    /** Scans the snapshot up to the live fd_max; a round of the loop for every index makes it end. */
    method TcpProcessRequest(rd: set<nat>, wr: set<nat>, answers: seq<Answer>)
      requires Sized() && Runnable(Model()) && RoundFits(Model(), Round(rd, wr, answers), parse)
      modifies this`readfdSet, this`writefdSet, this`fdMax, this`open, this`log, ctx, http
      ensures Sized() && Runnable(Model())
      ensures Model() == Pass(old(Model()), rd, wr, 3, answers, parse)
    {
      hide Inv, Current, Visit, Fits;
      if Inv(Model()) {
        SnapshotCurrent(Model(), rd, wr);
      }
      var fdIdx := 3;
      while fdIdx <= fdMax
        invariant Sized() && Shape(Model()) && 3 <= fdIdx <= TCP_MAX_CTX
        invariant fdMax < 3 || (Inv(Model()) && Current(Model(), rd, wr, fdIdx))
        invariant PassFits(Model(), rd, wr, fdIdx, answers, parse)
        invariant Pass(Model(), rd, wr, fdIdx, answers, parse) == Pass(old(Model()), rd, wr, 3, answers, parse)
        decreases TCP_MAX_CTX - fdIdx
      {
        VisitKeeps(Model(), rd, wr, fdIdx, answers[fdIdx], parse);
        ProcessFd(fdIdx, rd, wr, answers[fdIdx]);
        fdIdx := fdIdx + 1;
      }
    }

    /** The event loop, for as many rounds as there are returns of select with something ready. */
    method TcpSelect(rounds: seq<Round>)
      requires Sized() && Runnable(Model()) && RunFits(Model(), rounds, parse)
      modifies this`readfdSet, this`writefdSet, this`fdMax, this`open, this`log, ctx, http
      ensures Sized() && Runnable(Model())
      ensures Model() == Run(old(Model()), rounds, parse)
    {
      hide Runnable, Pass, PassFits;
      var k := 0;
      assert rounds[0..] == rounds;
      while k < |rounds|
        invariant 0 <= k <= |rounds| && Sized() && Runnable(Model())
        invariant RunFits(Model(), rounds[k..], parse)
        invariant Run(Model(), rounds[k..], parse) == Run(old(Model()), rounds, parse)
      {
        assert rounds[k..][0] == rounds[k] && rounds[k..][1..] == rounds[k + 1..];
        TcpProcessRequest(rounds[k].rd, rounds[k].wr, rounds[k].answers);
        k := k + 1;
      }
    }

    // -------------------------------------------------------------------- set-up

    method TcpSocket(n: nat) returns (sockFd: nat)
      requires Sized() && Fresh(Model(), n)
      modifies this`open, ctx
      ensures Sized() && sockFd == n && Model() == SocketCreated(old(Model()), n)
      ensures ctx[..] == old(ctx[..])[n := old(ctx[n]).(fdState := Created)] && open == old(open) + {n}
    {
      sockFd := n;
      open := open + {sockFd};
      ctx[sockFd] := ctx[sockFd].(fdState := Created);
    }

    method TcpBind(sockFd: nat, ok: bool) returns (rc: int)
      requires Sized() && sockFd < TCP_MAX_CTX
      modifies this`fdMax, ctx
      ensures Sized() && (rc < 0 <==> !ok) && Model() == Bound(old(Model()), sockFd, ok)
      ensures fdMax == if ok && old(fdMax) < sockFd then sockFd else old(fdMax)
      ensures ok ==> ctx[..] == old(ctx[..])[sockFd := old(ctx[sockFd]).(fdState := Listen, listenFd := sockFd)]
      ensures !ok ==> ctx[..] == old(ctx[..])
    {
      if !ok {
        return -1;
      }
      ctx[sockFd] := ctx[sockFd].(fdState := Listen, listenFd := sockFd);
      if fdMax < sockFd {
        fdMax := sockFd;
      }
      return 0;
    }

    /** Empties both sets and puts every listen descriptor into the read set. */
    method TcpIomuxInit()
      requires Sized() && forall j :: 0 <= j < TCP_MAX_CTX ==> ctx[j].listenFd < TCP_MAX_CTX
      modifies this`readfdSet, this`writefdSet, this`fdMax
      ensures Sized() && Model() == IomuxInit(old(Model()))
      ensures writefdSet == {} && forall x ::
                x in readfdSet <==> exists i :: 0 <= i < TCP_MAX_CTX && IsListed(ctx[i]) && ctx[i].listenFd == x
      ensures forall x :: x in readfdSet ==> x <= fdMax
      ensures readfdSet != {} ==> fdMax in readfdSet
      ensures readfdSet == {} ==> fdMax == old(fdMax)
    {
      hide ListenFds, MaxListen;
      readfdSet, writefdSet := {}, {};
      var max := -1;
      var idx := 0;
      OneMoreEntry(ctx[..], 0);
      while idx < TCP_MAX_CTX
        invariant 0 <= idx <= TCP_MAX_CTX && max < TCP_MAX_CTX && Sized()
        invariant writefdSet == {} && readfdSet == ListenFds(ctx[..], idx) && max == MaxListen(ctx[..], idx)
        invariant fdMax == if max == -1 then old(fdMax) else max
      {
        OneMoreEntry(ctx[..], idx);
        if ctx[idx].fdState == Created || ctx[idx].fdState == Listen {
          max := if max > ctx[idx].listenFd then max else ctx[idx].listenFd;
          fdMax := max;
          SetReadFd(ctx[idx].listenFd);
        }
        idx := idx + 1;
      }
      assert |ctx[..]| == TCP_MAX_CTX;
    }

    /** What listen returns is not looked at. */
    method TcpInstanceCreate(n: nat, bindOk: bool)
      requires Sized() && Fresh(Model(), n)
      requires forall j :: 0 <= j < TCP_MAX_CTX ==> ctx[j].listenFd < TCP_MAX_CTX
      modifies this`readfdSet, this`writefdSet, this`fdMax, this`open, ctx
      ensures Sized() && Model() == InstanceCreated(old(Model()), n, bindOk)
    {
      hide IomuxInit;
      var sockFd := TcpSocket(n);
      var rc := TcpBind(sockFd, bindOk);
      ctx[sockFd] := ctx[sockFd].(registered := true);
      TcpIomuxInit();
    }
  }

  lemma StartZeroed<H>(blank: H)
    ensures Zeroed(Start(blank)) && forall n: nat :: 3 <= n < TCP_MAX_CTX ==> Fresh(Start(blank), n)
  {
  }

  /** Nothing ever happens while fd_max is below the first number that is scanned. */
  lemma {:induction false} NothingScanned<H>(s: Server<H>, rounds: seq<Round>, parse: Parser<H>)
    requires Shape(s) && s.fdMax < 3 && RunFits(s, rounds, parse)
    ensures Run(s, rounds, parse) == s
    decreases |rounds|
  {
    hide PassFits;
    if rounds != [] {
      NothingScanned(s, rounds[1..], parse);
    }
  }

  /** What a server can be seen to have done on each descriptor. */
  ghost predicate ServedInOrder<H>(r: Server<H>, blank: H, parse: Parser<H>)
  {
    Shape(r) && forall j: nat :: j < TCP_MAX_CTX ==>
      InOrder(blank, EventsOn(r.log, j), parse) && r.http[j] == ContextAfter(blank, EventsOn(r.log, j), parse)
  }

  lemma NoEvents<H>(j: nat)
    ensures EventsOn<H>([], j) == []
  {
  }

  lemma NothingSeen<H>(blank: H, parse: Parser<H>)
    ensures InOrder(blank, [], parse) && ContextAfter(blank, [], parse) == blank
  {
  }

  /**
   * From start-up, whether or not the bind succeeds and whatever clients do: each descriptor has seen sessions
   * in order, each response made from the requests received on it so far.
   */
  lemma ServerRuns<H>(blank: H, n: nat, bindOk: bool, rounds: seq<Round>, parse: Parser<H>)
    requires 3 <= n < TCP_MAX_CTX && RunFits(InstanceCreated(Start(blank), n, bindOk), rounds, parse)
    ensures Runnable(InstanceCreated(Start(blank), n, bindOk))
    ensures var r := Run(InstanceCreated(Start(blank), n, bindOk), rounds, parse);
            ServedInOrder(r, blank, parse) && (Inv(r) <==> bindOk) && (!bindOk ==> r.log == [])
  {
    hide Inv, InstanceCreated, RunFits, Run, EventsOn, InOrder, ContextAfter, MaxListen, ListenFds;
    var s := Start(blank);
    StartZeroed(blank);
    ServerStarts(s, n, bindOk);
    EntriesAfter(s, n, bindOk);
    var t := InstanceCreated(s, n, bindOk);
    if bindOk {
      RunKeeps(t, rounds, parse);
      InvShape(Run(t, rounds, parse));
      forall j: nat | j < TCP_MAX_CTX
        ensures InOrder(blank, EventsOn(Run(t, rounds, parse).log, j), parse)
        ensures Run(t, rounds, parse).http[j] == ContextAfter(blank, EventsOn(Run(t, rounds, parse).log, j), parse)
      {
        SessionsInOrder(t, rounds, parse, j);
      }
    } else {
      NothingScanned(t, rounds, parse);
      NothingSeen(blank, parse);
      forall j: nat | j < TCP_MAX_CTX ensures EventsOn(t.log, j) == [] {
        NoEvents<H>(j);
      }
    }
  }

  /** main, for as many rounds as it is left running. */
  method Serve<H>(parse: Parser<H>, blank: H, n: nat, bindOk: bool, rounds: seq<Round>) returns (server: TcpContext<H>)
    requires 3 <= n < TCP_MAX_CTX && RunFits(InstanceCreated(Start(blank), n, bindOk), rounds, parse)
    ensures fresh(server) && server.Sized() && ServedInOrder(server.Model(), blank, parse)
    ensures Inv(server.Model()) <==> bindOk
    ensures server.Model() == Run(InstanceCreated(Start(blank), n, bindOk), rounds, parse)
  {
    hide Inv, InstanceCreated, RunFits, Run, ServedInOrder, Runnable;
    server := new TcpContext(parse, blank);
    assert server.Model() == Start(blank);
    StartZeroed(blank);
    ServerRuns(blank, n, bindOk, rounds, parse);
    server.TcpInstanceCreate(n, bindOk);
    server.TcpSelect(rounds);
  }
}
