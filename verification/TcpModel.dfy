/**
 * The connection state machine of tcp_main.c and of the callback in http_main.c, as
 * functions on values: what one ready descriptor, one pass over a select snapshot and
 * a whole run of the event loop do.  The kernel's answers are inputs; what a kernel
 * may answer is said by predicates.
 */
module TcpModel {
  import opened Words

  const TCP_MAX_CTX := 255

  const HTTP_CTX := 256

  datatype FdState = Err | Reserved | Created | Connected | Released | Listen

  datatype Entry = Entry(fdState: FdState, listenFd: nat, auxFd: nat, registered: bool)

  /** The callbacks, with what they were given; a response is told apart by the request context it is made from. */
  datatype Event<H> =
    | New(listener: nat, fd: nat)
    | Received(fd: nat, data: seq<Byte>)
    | Sent(fd: nat, http: H)
    | Close(fd: nat)

  /** The descriptor that was ready. */
  function Cause<H>(e: Event<H>): nat {
    if e.New? then e.listener else e.fd
  }

  /** What recv returns: a failure, which the source takes for data, or bytes, none at the end of the stream. */
  datatype Recv = Failed | Bytes(data: seq<Byte>)

  /** The kernel's answer for a ready descriptor: the number accept returns, and what recv returns. */
  datatype Answer = Answer(accepted: nat, received: Recv)

  /** The global contexts, the numbers the kernel has open, and the callbacks so far. */
  datatype Server<H> = Server(
    ctx: seq<Entry>, read: set<nat>, write: set<nat>, fdMax: int,
    open: set<nat>, http: seq<H>, log: seq<Event<H>>)

  type Parser<!H> = (H, seq<Byte>) -> H

  ghost predicate Shape<H>(s: Server<H>) {
    |s.ctx| == TCP_MAX_CTX && |s.http| == HTTP_CTX && s.fdMax < TCP_MAX_CTX
  }

  // ---------------------------------------------------------------- the callbacks

  function NewConnection<H>(s: Server<H>, listener: nat, fd: nat): Server<H> {
    s.(log := s.log + [New(listener, fd)], read := s.read + {fd})
  }

  function DataReceived<H>(s: Server<H>, fd: nat, data: seq<Byte>, parse: Parser<H>): Server<H>
    requires fd < |s.http|
  {
    s.(log := s.log + [Received(fd, data)],
       read := s.read - {fd}, http := s.http[fd := parse(s.http[fd], data)], write := s.write + {fd})
  }

  function CloseConnection<H>(s: Server<H>, fd: nat): Server<H>
    requires fd < |s.ctx|
  {
    s.(log := s.log + [Close(fd)],
       read := s.read - {fd}, ctx := s.ctx[fd := s.ctx[fd].(fdState := Released)], open := s.open - {fd})
  }

  function DataSent<H>(s: Server<H>, fd: nat): Server<H>
    requires fd < |s.http|
  {
    s.(log := s.log + [Sent(fd, s.http[fd])], write := s.write - {fd}, read := s.read + {fd})
  }

  // ------------------------------------------------------------------- one visit

  function Accept<H>(s: Server<H>, n: nat): Server<H>
    requires n < |s.ctx|
  {
    s.(ctx := s.ctx[n := s.ctx[n].(auxFd := n, fdState := Connected)],
       fdMax := if s.fdMax < n then n else s.fdMax, open := s.open + {n})
  }

  function Register<H>(s: Server<H>, n: nat, registered: bool): Server<H>
    requires n < |s.ctx|
  {
    s.(ctx := s.ctx[n := s.ctx[n].(registered := registered)])
  }

  predicate IsListener<H>(s: Server<H>, fd: nat) {
    fd < |s.ctx| && s.ctx[fd].fdState == Listen && s.ctx[fd].listenFd == fd
  }

  predicate IsConnection<H>(s: Server<H>, fd: nat) {
    fd < |s.ctx| && s.ctx[fd].fdState == Connected && s.ctx[fd].auxFd == fd
  }

  /** The loop body for one descriptor of the snapshot; readable wins over writable. */
  function Visit<H>(s: Server<H>, rd: set<nat>, wr: set<nat>, fd: nat, a: Answer, parse: Parser<H>): (r: Server<H>)
    requires Shape(s) && fd < TCP_MAX_CTX && a.accepted < TCP_MAX_CTX
    ensures Shape(r) && s.fdMax <= r.fdMax
  {
    if fd in rd then
      if IsListener(s, fd) then
        Register(NewConnection(Accept(s, a.accepted), fd, a.accepted), a.accepted, s.ctx[fd].registered)
      else if IsConnection(s, fd) then
        if a.received == Bytes([]) then CloseConnection(s, fd)
        else DataReceived(s, fd, if a.received.Failed? then [] else a.received.data, parse)
      else s
    else if fd in wr then DataSent(s, fd)
    else s
  }

  /** The kernel never hands out a number that is open, and keeps to the size of the table. */
  ghost predicate Fits<H>(s: Server<H>, rd: set<nat>, fd: nat, a: Answer) {
    a.accepted < TCP_MAX_CTX && (fd in rd && IsListener(s, fd) ==> 3 <= a.accepted && a.accepted !in s.open)
  }

  // -------------------------------------------------------------------- one pass

  /** The scan from fd on; its bound is the live fd_max, which accepting may raise. */
  function Pass<H>(s: Server<H>, rd: set<nat>, wr: set<nat>, fd: nat, answers: seq<Answer>,
                   parse: Parser<H>): (r: Server<H>)
    requires Shape(s) && |answers| == TCP_MAX_CTX
    requires forall i :: 0 <= i < |answers| ==> answers[i].accepted < TCP_MAX_CTX
    ensures Shape(r) && s.fdMax <= r.fdMax
    decreases TCP_MAX_CTX - fd
  {
    if fd > s.fdMax then s else Pass(Visit(s, rd, wr, fd, answers[fd], parse), rd, wr, fd + 1, answers, parse)
  }

  ghost predicate PassFits<H>(s: Server<H>, rd: set<nat>, wr: set<nat>, fd: nat, answers: seq<Answer>, parse: Parser<H>)
    requires Shape(s) && |answers| == TCP_MAX_CTX
    requires forall i :: 0 <= i < |answers| ==> answers[i].accepted < TCP_MAX_CTX
    decreases TCP_MAX_CTX - fd
  {
    fd <= s.fdMax ==>
      Fits(s, rd, fd, answers[fd]) && PassFits(Visit(s, rd, wr, fd, answers[fd], parse), rd, wr, fd + 1, answers, parse)
  }

  // ------------------------------------------------------------------ a whole run

  /** One return of select with its snapshots, and the answers during the pass that follows. */
  datatype Round = Round(rd: set<nat>, wr: set<nat>, answers: seq<Answer>)

  ghost predicate RoundFits<H>(s: Server<H>, round: Round, parse: Parser<H>) {
    && Shape(s) && |round.answers| == TCP_MAX_CTX
    && (forall i :: 0 <= i < |round.answers| ==> round.answers[i].accepted < TCP_MAX_CTX)
    && round.rd <= s.read && round.wr <= s.write
    && PassFits(s, round.rd, round.wr, 3, round.answers, parse)
  }

  ghost predicate RunFits<H>(s: Server<H>, rounds: seq<Round>, parse: Parser<H>)
    decreases |rounds|
  {
    rounds != [] ==>
      && RoundFits(s, rounds[0], parse)
      && RunFits(Pass(s, rounds[0].rd, rounds[0].wr, 3, rounds[0].answers, parse), rounds[1..], parse)
  }

  /** The state after the event loop has gone round once for each element. */
  ghost function Run<H>(s: Server<H>, rounds: seq<Round>, parse: Parser<H>): Server<H>
    requires RunFits(s, rounds, parse)
    decreases |rounds|
  {
    if rounds == [] then s
    else Run(Pass(s, rounds[0].rd, rounds[0].wr, 3, rounds[0].answers, parse), rounds[1..], parse)
  }

  // ----------------------------------------------------------------- the invariant

  /** Everything the server keeps about one descriptor. */
  datatype View<H> = View(entry: Entry, reading: bool, writing: bool, isOpen: bool, http: H)

  ghost function ViewOf<H>(s: Server<H>, j: nat): View<H>
    requires Shape(s) && j < TCP_MAX_CTX
  {
    View(s.ctx[j], j in s.read, j in s.write, j in s.open, s.http[j])
  }

  /** What holds of one descriptor between two callbacks. */
  predicate Good<H>(v: View<H>, j: nat, fdMax: int) {
    && (v.reading || v.writing ==> 3 <= j <= fdMax && v.isOpen)
    && match v.entry.fdState
       case Connected => v.reading != v.writing && v.entry.auxFd == j && v.entry.registered
       case Listen => v.reading && !v.writing && v.entry.listenFd == j && v.entry.registered
       case _ => !v.reading && !v.writing
  }

  ghost predicate Inv<H>(s: Server<H>) {
    && Shape(s)
    && (forall j :: j in s.read || j in s.write ==> j < TCP_MAX_CTX)
    && forall j: nat :: j < TCP_MAX_CTX ==> Good(ViewOf(s, j), j, s.fdMax)
  }

  lemma GoodView<H>(s: Server<H>, j: nat)
    requires Shape(s) && j < TCP_MAX_CTX && Good(ViewOf(s, j), j, s.fdMax)
    ensures j in s.read || j in s.write ==>
              3 <= j <= s.fdMax && j in s.open && !(j in s.read && j in s.write)
    ensures j in s.read || j in s.write ==> IsConnection(s, j) || IsListener(s, j)
    ensures IsConnection(s, j) || IsListener(s, j) ==> (j in s.read || j in s.write) && s.ctx[j].registered
    ensures IsListener(s, j) ==> j in s.read && j !in s.write
  {
  }

  /** What the invariant means for the two interest sets. */
  lemma InterestSets<H>(s: Server<H>)
    requires Inv(s)
    ensures s.read !! s.write && s.read + s.write <= s.open
    ensures forall j: nat :: j in s.read + s.write ==> 3 <= j <= s.fdMax < TCP_MAX_CTX
    ensures forall j: nat :: j in s.read + s.write <==> IsConnection(s, j) || IsListener(s, j)
    ensures forall j: nat :: IsListener(s, j) ==> j in s.read && j !in s.write
    ensures forall j: nat :: IsConnection(s, j) || IsListener(s, j) ==> s.ctx[j].registered
  {
    hide Good;
    forall j: nat | j in s.read || j in s.write
      ensures 3 <= j <= s.fdMax && j in s.open && !(j in s.read && j in s.write)
      ensures IsConnection(s, j) || IsListener(s, j)
    {
      GoodView(s, j);
    }
    forall j: nat | IsConnection(s, j) || IsListener(s, j)
      ensures j in s.read || j in s.write
      ensures s.ctx[j].registered && (IsListener(s, j) ==> j in s.read && j !in s.write)
    {
      GoodView(s, j);
    }
  }

  // -------------------------------------------------------------------- isolation

  /** What a visit leaves of the view of the descriptor that was ready. */
  function OwnView<H>(v: View<H>, rd: bool, wr: bool, fd: nat, a: Answer, parse: Parser<H>): View<H> {
    if rd then
      if v.entry.fdState == Connected && v.entry.auxFd == fd then
        if a.received == Bytes([]) then v.(entry := v.entry.(fdState := Released), reading := false, isOpen := false)
        else v.(reading := false, writing := true,
                http := parse(v.http, if a.received.Failed? then [] else a.received.data))
      else v
    else if wr then v.(writing := false, reading := true)
    else v
  }

  /**
   * A visit changes nothing but the view of the ready descriptor and, when that is a listener, of the
   * descriptor that was accepted; and what it makes of them depends on nothing else.
   */
  lemma Isolation<H>(s: Server<H>, rd: set<nat>, wr: set<nat>, fd: nat, a: Answer, parse: Parser<H>, j: nat)
    requires Shape(s) && fd < TCP_MAX_CTX && Fits(s, rd, fd, a) && j < TCP_MAX_CTX
    requires IsListener(s, fd) ==> fd in s.open
    ensures var v, w := ViewOf(s, j), ViewOf(Visit(s, rd, wr, fd, a, parse), j);
            w == if fd in rd && IsListener(s, fd) && j == a.accepted then
                   View(v.entry.(auxFd := j, fdState := Connected, registered := s.ctx[fd].registered), true, v.writing,
                        true, v.http)
                 else if j == fd then OwnView(v, fd in rd, fd in wr, fd, a, parse)
                 else v
  {
  }

  // ------------------------------------------------------- what every visit keeps

  predicate CurrentAt<H>(s: Server<H>, rd: set<nat>, wr: set<nat>, j: nat) {
    (j in rd ==> j in s.read && j !in s.write) && (j in wr ==> j in s.write && j !in s.read)
  }

  /** What is left of the snapshot still holds of the live sets. */
  ghost predicate Current<H>(s: Server<H>, rd: set<nat>, wr: set<nat>, fd: nat) {
    forall j: nat :: fd <= j ==> CurrentAt(s, rd, wr, j)
  }

  lemma GoodOwnView<H>(v: View<H>, rd: bool, wr: bool, fd: nat, fdMax: int, a: Answer, parse: Parser<H>)
    requires Good(v, fd, fdMax)
    requires (rd ==> v.reading && !v.writing) && (wr ==> v.writing && !v.reading)
    ensures Good(OwnView(v, rd, wr, fd, a, parse), fd, fdMax)
  {
  }

  lemma GoodAccepted<H>(v: View<H>, j: nat, fdMax: int, newMax: int)
    requires Good(v, j, fdMax) && !v.isOpen && 3 <= j <= newMax
    ensures Good(View(v.entry.(auxFd := j, fdState := Connected, registered := true), true, v.writing, true, v.http),
                 j, newMax)
  {
  }

  lemma GoodWithMore<H>(v: View<H>, j: nat, fdMax: int, newMax: int)
    requires Good(v, j, fdMax) && fdMax <= newMax
    ensures Good(v, j, newMax)
  {
  }

  lemma AcceptedIsCounted<H>(s: Server<H>, rd: set<nat>, wr: set<nat>, fd: nat, a: Answer, parse: Parser<H>)
    requires Shape(s) && fd < TCP_MAX_CTX && a.accepted < TCP_MAX_CTX && fd in rd && IsListener(s, fd)
    ensures a.accepted <= Visit(s, rd, wr, fd, a, parse).fdMax
  {
  }

  lemma VisitViewGood<H>(s: Server<H>, rd: set<nat>, wr: set<nat>, fd: nat, a: Answer, parse: Parser<H>, j: nat)
    requires Inv(s) && Current(s, rd, wr, fd) && fd < TCP_MAX_CTX && Fits(s, rd, fd, a) && j < TCP_MAX_CTX
    ensures var r := Visit(s, rd, wr, fd, a, parse);
            Good(ViewOf(r, j), j, r.fdMax) && (fd < j ==> CurrentAt(r, rd, wr, j))
  {
    hide Good, Visit, OwnView;
    var r, v := Visit(s, rd, wr, fd, a, parse), ViewOf(s, j);
    assert CurrentAt(s, rd, wr, fd) && (fd < j ==> CurrentAt(s, rd, wr, j));
    GoodView(s, fd);
    GoodView(s, j);
    Isolation(s, rd, wr, fd, a, parse, j);
    if fd in rd && IsListener(s, fd) && j == a.accepted {
      AcceptedIsCounted(s, rd, wr, fd, a, parse);
      GoodAccepted(v, j, s.fdMax, r.fdMax);
    } else {
      if j == fd {
        GoodOwnView(v, fd in rd, fd in wr, fd, s.fdMax, a, parse);
      }
      GoodWithMore(ViewOf(r, j), j, s.fdMax, r.fdMax);
    }
  }

  lemma VisitMembers<H>(s: Server<H>, rd: set<nat>, wr: set<nat>, fd: nat, a: Answer, parse: Parser<H>)
    requires Shape(s) && fd < TCP_MAX_CTX && a.accepted < TCP_MAX_CTX
    requires forall j :: j in s.read || j in s.write ==> j < TCP_MAX_CTX
    ensures var r := Visit(s, rd, wr, fd, a, parse); forall j :: j in r.read || j in r.write ==> j < TCP_MAX_CTX
  {
  }

  /**
   * Every visit keeps the invariant, and keeps the rest of the snapshot current: what is still to be scanned
   * is still in the live set it was taken from.
   */
  lemma VisitKeeps<H>(s: Server<H>, rd: set<nat>, wr: set<nat>, fd: nat, a: Answer, parse: Parser<H>)
    requires Inv(s) && Current(s, rd, wr, fd) && fd < TCP_MAX_CTX && Fits(s, rd, fd, a)
    ensures Inv(Visit(s, rd, wr, fd, a, parse)) && Current(Visit(s, rd, wr, fd, a, parse), rd, wr, fd + 1)
  {
    hide Visit, Good;
    var r := Visit(s, rd, wr, fd, a, parse);
    VisitMembers(s, rd, wr, fd, a, parse);
    forall j: nat | j < TCP_MAX_CTX ensures Good(ViewOf(r, j), j, r.fdMax) && (fd < j ==> CurrentAt(r, rd, wr, j)) {
      VisitViewGood(s, rd, wr, fd, a, parse, j);
    }
    forall j: nat | TCP_MAX_CTX <= j ensures CurrentAt(r, rd, wr, j) {
      assert CurrentAt(s, rd, wr, j);
    }
  }

  // --------------------------------------------------------- passes and whole runs

  lemma InvShape<H>(s: Server<H>)
    requires Inv(s)
    ensures Shape(s)
  {
  }

  lemma {:induction false} PassKeeps<H>(s: Server<H>, rd: set<nat>, wr: set<nat>, fd: nat, answers: seq<Answer>,
                                        parse: Parser<H>)
    requires Inv(s) && Current(s, rd, wr, fd)
    requires |answers| == TCP_MAX_CTX && (forall i :: 0 <= i < |answers| ==> answers[i].accepted < TCP_MAX_CTX)
    requires PassFits(s, rd, wr, fd, answers, parse)
    ensures Inv(Pass(s, rd, wr, fd, answers, parse))
    decreases TCP_MAX_CTX - fd
  {
    hide Visit, Inv, Current, Fits;
    InvShape(s);
    if fd <= s.fdMax {
      VisitKeeps(s, rd, wr, fd, answers[fd], parse);
      PassKeeps(Visit(s, rd, wr, fd, answers[fd], parse), rd, wr, fd + 1, answers, parse);
    }
  }

  lemma SnapshotCurrent<H>(s: Server<H>, rd: set<nat>, wr: set<nat>)
    requires Inv(s) && rd <= s.read && wr <= s.write
    ensures Current(s, rd, wr, 3)
  {
    InterestSets(s);
  }

  /** The invariant holds in every state a run can reach. */
  lemma {:induction false} RunKeeps<H>(s: Server<H>, rounds: seq<Round>, parse: Parser<H>)
    requires Inv(s) && RunFits(s, rounds, parse)
    ensures Inv(Run(s, rounds, parse)) && s.fdMax <= Run(s, rounds, parse).fdMax
    decreases |rounds|
  {
    hide Inv, Current, Pass, PassFits;
    if rounds != [] {
      var round := rounds[0];
      SnapshotCurrent(s, round.rd, round.wr);
      PassKeeps(s, round.rd, round.wr, 3, round.answers, parse);
      RunKeeps(Pass(s, round.rd, round.wr, 3, round.answers, parse), rounds[1..], parse);
    }
  }
}
