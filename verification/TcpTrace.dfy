/**
 * What the callbacks of a run look like: within one pass each ready descriptor gets
 * exactly one callback, decided by the state at the time of the snapshot, and over a
 * whole run each descriptor sees a session of its own.
 */
module TcpTrace {
  import opened TcpModel

  // ------------------------------------------------------------- the log of a pass

  /** The callback a descriptor gets, from its own view and the kernel's answer alone. */
  function EventFor<H>(v: View<H>, rd: bool, wr: bool, fd: nat, a: Answer): (es: seq<Event<H>>)
    ensures |es| <= 1
    ensures es != [] ==> Cause(es[0]) == fd && (rd || wr)
  {
    if rd then
      if v.entry.fdState == Listen && v.entry.listenFd == fd then [New(fd, a.accepted)]
      else if v.entry.fdState == Connected && v.entry.auxFd == fd then
        if a.received == Bytes([]) then [Close(fd)]
        else [Received(fd, if a.received.Failed? then [] else a.received.data)]
      else []
    else if wr then [Sent(fd, v.http)]
    else []
  }

  lemma VisitLog<H>(s: Server<H>, rd: set<nat>, wr: set<nat>, fd: nat, a: Answer, parse: Parser<H>)
    requires Shape(s) && fd < TCP_MAX_CTX && a.accepted < TCP_MAX_CTX
    ensures Visit(s, rd, wr, fd, a, parse).log == s.log + EventFor(ViewOf(s, fd), fd in rd, fd in wr, fd, a)
  {
  }

  /** The callbacks of the descriptors from 3 to n, each as its view in s has it. */
  ghost function Expected<H>(s: Server<H>, rd: set<nat>, wr: set<nat>, n: nat, answers: seq<Answer>): seq<Event<H>>
    requires Shape(s) && n <= TCP_MAX_CTX == |answers|
  {
    if n <= 3 then []
    else
      Expected(s, rd, wr, n - 1, answers)
      + EventFor(ViewOf(s, n - 1), n - 1 in rd, n - 1 in wr, n - 1, answers[n - 1])
  }

  /** No callback but the last is on a descriptor that was accepted by another. */
  ghost predicate NewIsLast<H>(es: seq<Event<H>>) {
    forall p, q :: 0 <= p < q < |es| && es[p].New? ==> es[q].fd != es[p].fd
  }

  /** Accepted numbers are open, and either behind the scan or not in the snapshot. */
  ghost predicate NewAreBehind<H>(es: seq<Event<H>>, open: set<nat>, rd: set<nat>, wr: set<nat>) {
    forall p :: 0 <= p < |es| && es[p].New? ==> es[p].fd in open && (es[p].fd < es[p].listener || es[p].fd !in rd + wr)
  }

  ghost predicate Accepted<H>(es: seq<Event<H>>, j: nat) {
    exists p :: 0 <= p < |es| && es[p].New? && es[p].fd == j
  }

  /** Descriptors behind the scan have made their own step from the state before the pass, the others none. */
  ghost predicate StepsMade<H>(s0: Server<H>, s: Server<H>, es: seq<Event<H>>, rd: set<nat>, wr: set<nat>, fd: nat,
                               answers: seq<Answer>, parse: Parser<H>)
    requires Shape(s0) && Shape(s) && |answers| == TCP_MAX_CTX
  {
    forall j: nat :: j < TCP_MAX_CTX && !Accepted(es, j) ==>
      ViewOf(s, j)
      == if 3 <= j < fd then OwnView(ViewOf(s0, j), j in rd, j in wr, j, answers[j], parse) else ViewOf(s0, j)
  }

  ghost predicate Progress<H>(s0: Server<H>, s: Server<H>, es: seq<Event<H>>, rd: set<nat>, wr: set<nat>, fd: nat,
                              answers: seq<Answer>, parse: Parser<H>)
    requires Shape(s0) && Shape(s) && fd <= TCP_MAX_CTX == |answers|
  {
    && s.log == s0.log + es
    && es == Expected(s0, rd, wr, fd, answers)
    && NewIsLast(es) && NewAreBehind(es, s.open, rd, wr)
    && (forall p :: 0 <= p < |es| ==> Cause(es[p]) < fd)
    && StepsMade(s0, s, es, rd, wr, fd, answers, parse)
  }

  /** A descriptor of the snapshot that is still to be scanned is as it was when the pass began. */
  lemma UnscannedAsBefore<H>(s0: Server<H>, s: Server<H>, es: seq<Event<H>>, rd: set<nat>, wr: set<nat>, fd: nat,
                             answers: seq<Answer>, parse: Parser<H>, j: nat)
    requires Shape(s0) && Shape(s) && fd <= TCP_MAX_CTX == |answers|
    requires Progress(s0, s, es, rd, wr, fd, answers, parse)
    requires fd <= j < TCP_MAX_CTX && j in rd + wr
    ensures !Accepted(es, j) && ViewOf(s, j) == ViewOf(s0, j)
  {
  }

  lemma LogGrows<H>(es: seq<Event<H>>, more: seq<Event<H>>, open: set<nat>, newOpen: set<nat>, rd: set<nat>,
                    wr: set<nat>, fd: nat)
    requires NewIsLast(es) && NewAreBehind(es, open, rd, wr) && |more| <= 1
    requires forall p :: 0 <= p < |es| ==> Cause(es[p]) < fd
    requires more != [] ==> Cause(more[0]) == fd && fd in rd + wr
    requires more != [] && more[0].New? ==>
               more[0].fd !in open && more[0].fd in newOpen && (more[0].fd < fd || more[0].fd !in rd + wr)
    requires forall x :: x in open && (more == [] || !more[0].Close? || x != fd) ==> x in newOpen
    ensures NewIsLast(es + more) && NewAreBehind(es + more, newOpen, rd, wr)
    ensures forall p :: 0 <= p < |es + more| ==> Cause((es + more)[p]) < fd + 1
  {
  }

  lemma OpenAfter<H>(s: Server<H>, rd: set<nat>, wr: set<nat>, fd: nat, a: Answer, parse: Parser<H>)
    requires Shape(s) && fd < TCP_MAX_CTX && Fits(s, rd, fd, a)
    ensures var more, r := EventFor(ViewOf(s, fd), fd in rd, fd in wr, fd, a), Visit(s, rd, wr, fd, a, parse);
            && (more != [] && more[0].New? ==>
                  more[0].fd == a.accepted && more[0].fd !in s.open && more[0].fd in r.open)
            && (more != [] && more[0].New? <==> fd in rd && IsListener(s, fd))
            && (forall x :: x in s.open && (more == [] || !more[0].Close? || x != fd) ==> x in r.open)
  {
  }

  /** A number that is not open is in no snapshot position still to be scanned. */
  lemma UnopenedNotCurrent<H>(s: Server<H>, rd: set<nat>, wr: set<nat>, fd: nat, x: nat)
    requires Inv(s) && Current(s, rd, wr, fd) && x !in s.open
    ensures x < fd || x !in rd + wr
  {
    InterestSets(s);
    assert fd <= x ==> CurrentAt(s, rd, wr, x);
  }

  lemma AcceptedMore<H>(es: seq<Event<H>>, more: seq<Event<H>>, j: nat)
    requires |more| <= 1
    ensures Accepted(es + more, j) <==> Accepted(es, j) || (more != [] && more[0].New? && more[0].fd == j)
  {
    if Accepted(es, j) {
      var p :| 0 <= p < |es| && es[p].New? && es[p].fd == j;
      assert (es + more)[p] == es[p];
    }
    if more != [] {
      assert (es + more)[|es|] == more[0];
    }
  }

  lemma StepMade<H>(s0: Server<H>, s: Server<H>, es: seq<Event<H>>, rd: set<nat>, wr: set<nat>, fd: nat,
                    answers: seq<Answer>, parse: Parser<H>, j: nat)
    requires Shape(s0) && Inv(s) && fd < TCP_MAX_CTX == |answers| && Fits(s, rd, fd, answers[fd]) && 3 <= fd
    requires StepsMade(s0, s, es, rd, wr, fd, answers, parse)
    requires j < TCP_MAX_CTX && !Accepted(es + EventFor(ViewOf(s, fd), fd in rd, fd in wr, fd, answers[fd]), j)
    ensures ViewOf(Visit(s, rd, wr, fd, answers[fd], parse), j)
            == if 3 <= j < fd + 1 then OwnView(ViewOf(s0, j), j in rd, j in wr, j, answers[j], parse) else ViewOf(s0, j)
  {
    hide Visit, OwnView, EventFor, Accepted, Good;
    var more := EventFor(ViewOf(s, fd), fd in rd, fd in wr, fd, answers[fd]);
    AcceptedMore(es, more, j);
    OpenAfter(s, rd, wr, fd, answers[fd], parse);
    GoodView(s, fd);
    Isolation(s, rd, wr, fd, answers[fd], parse, j);
  }

  lemma AllStepsMade<H>(s0: Server<H>, s: Server<H>, es: seq<Event<H>>, rd: set<nat>, wr: set<nat>, fd: nat,
                        answers: seq<Answer>, parse: Parser<H>)
    requires Shape(s0) && Inv(s) && 3 <= fd < TCP_MAX_CTX == |answers| && Fits(s, rd, fd, answers[fd])
    requires StepsMade(s0, s, es, rd, wr, fd, answers, parse)
    ensures StepsMade(s0, Visit(s, rd, wr, fd, answers[fd], parse),
                      es + EventFor(ViewOf(s, fd), fd in rd, fd in wr, fd, answers[fd]), rd, wr, fd + 1, answers, parse)
  {
    hide Visit, OwnView, EventFor, Accepted, Good, Inv;
    InvShape(s);
    var more, r := EventFor(ViewOf(s, fd), fd in rd, fd in wr, fd, answers[fd]),
      Visit(s, rd, wr, fd, answers[fd], parse);
    forall j: nat | j < TCP_MAX_CTX && !Accepted(es + more, j)
      ensures ViewOf(r, j)
              == if 3 <= j < fd + 1 then OwnView(ViewOf(s0, j), j in rd, j in wr, j, answers[j], parse)
                 else ViewOf(s0, j)
    {
      StepMade(s0, s, es, rd, wr, fd, answers, parse, j);
    }
  }

  lemma NotReady<H>(v: View<H>, fd: nat, a: Answer)
    ensures EventFor(v, false, false, fd, a) == []
  {
  }

  lemma AppendOne<T>(a: seq<T>, b: seq<T>, c: seq<T>)
    ensures (a + b) + c == a + (b + c)
  {
  }

  lemma ProgressStep<H>(s0: Server<H>, s: Server<H>, es: seq<Event<H>>, rd: set<nat>, wr: set<nat>, fd: nat,
                        answers: seq<Answer>, parse: Parser<H>)
    requires Shape(s0) && Inv(s) && 3 <= fd < TCP_MAX_CTX == |answers|
    requires Progress(s0, s, es, rd, wr, fd, answers, parse)
    requires Current(s, rd, wr, fd) && Fits(s, rd, fd, answers[fd])
    ensures Progress(s0, Visit(s, rd, wr, fd, answers[fd], parse),
                     es + EventFor(ViewOf(s, fd), fd in rd, fd in wr, fd, answers[fd]), rd, wr, fd + 1, answers, parse)
  {
    hide Visit, OwnView, EventFor, Inv, Current, NewIsLast, NewAreBehind, Accepted, StepsMade;
    InvShape(s);
    var more, r := EventFor(ViewOf(s, fd), fd in rd, fd in wr, fd, answers[fd]),
      Visit(s, rd, wr, fd, answers[fd], parse);
    VisitLog(s, rd, wr, fd, answers[fd], parse);
    OpenAfter(s, rd, wr, fd, answers[fd], parse);
    if more != [] && more[0].New? {
      UnopenedNotCurrent(s, rd, wr, fd, more[0].fd);
    }
    LogGrows(es, more, s.open, r.open, rd, wr, fd);
    AppendOne(s0.log, es, more);
    if fd in rd + wr {
      UnscannedAsBefore(s0, s, es, rd, wr, fd, answers, parse, fd);
    } else {
      assert EventFor(ViewOf(s, fd), false, false, fd, answers[fd])
             == EventFor(ViewOf(s0, fd), false, false, fd, answers[fd]) by {
        NotReady(ViewOf(s, fd), fd, answers[fd]);
        NotReady(ViewOf(s0, fd), fd, answers[fd]);
      }
    }
    AllStepsMade(s0, s, es, rd, wr, fd, answers, parse);
  }

  // ----------------------------------------------------------- a pass as a whole

  /** The scan carries its progress to the end, where nothing of the snapshot is left. */
  lemma {:induction false} PassProgress<H>(s0: Server<H>, s: Server<H>, es: seq<Event<H>>, rd: set<nat>, wr: set<nat>,
                                           fd: nat, answers: seq<Answer>, parse: Parser<H>)
    returns (all: seq<Event<H>>, end: nat)
    requires Shape(s0) && Inv(s) && 3 <= fd <= TCP_MAX_CTX == |answers|
    requires forall i :: 0 <= i < |answers| ==> answers[i].accepted < TCP_MAX_CTX
    requires PassFits(s, rd, wr, fd, answers, parse)
    requires Progress(s0, s, es, rd, wr, fd, answers, parse) && Current(s, rd, wr, fd)
    ensures fd <= end <= TCP_MAX_CTX && Inv(Pass(s, rd, wr, fd, answers, parse))
    ensures Pass(s, rd, wr, fd, answers, parse).fdMax < end
    ensures Progress(s0, Pass(s, rd, wr, fd, answers, parse), all, rd, wr, end, answers, parse)
    decreases TCP_MAX_CTX - fd
  {
    hide Visit, Inv, Current, Progress, Fits;
    InvShape(s);
    if fd <= s.fdMax {
      VisitKeeps(s, rd, wr, fd, answers[fd], parse);
      ProgressStep(s0, s, es, rd, wr, fd, answers, parse);
      all, end := PassProgress(s0, Visit(s, rd, wr, fd, answers[fd], parse),
                               es + EventFor(ViewOf(s, fd), fd in rd, fd in wr, fd, answers[fd]), rd, wr, fd + 1,
                                 answers, parse);
    } else {
      all, end := es, fd;
    }
  }

  lemma ProgressBegins<H>(s: Server<H>, rd: set<nat>, wr: set<nat>, answers: seq<Answer>, parse: Parser<H>)
    requires Shape(s) && |answers| == TCP_MAX_CTX
    ensures Progress(s, s, [], rd, wr, 3, answers, parse)
  {
    hide OwnView;
    assert s.log + [] == s.log;
  }

  /** Beyond the last ready descriptor there is nothing to expect. */
  lemma {:induction false} ExpectedEnds<H>(s: Server<H>, rd: set<nat>, wr: set<nat>, m: nat, n: nat,
                                           answers: seq<Answer>)
    requires Shape(s) && 3 <= m <= n <= TCP_MAX_CTX == |answers|
    requires forall j: nat :: m <= j ==> j !in rd + wr
    ensures Expected(s, rd, wr, n, answers) == Expected(s, rd, wr, m, answers)
  {
    hide EventFor;
    if m < n {
      ExpectedEnds(s, rd, wr, m, n - 1, answers);
      assert n - 1 !in rd + wr;
      NotReady(ViewOf(s, n - 1), n - 1, answers[n - 1]);
      assert Expected(s, rd, wr, n - 1, answers) + [] == Expected(s, rd, wr, n - 1, answers);
    }
  }

  /** What the callbacks of a pass were, going by the state at the snapshot alone. */
  ghost function PassLog<H>(s: Server<H>, round: Round): seq<Event<H>>
    requires Shape(s) && |round.answers| == TCP_MAX_CTX
  {
    Expected(s, round.rd, round.wr, TCP_MAX_CTX, round.answers)
  }

  lemma NotReadyStays<H>(v: View<H>, fd: nat, a: Answer, parse: Parser<H>)
    ensures OwnView(v, false, false, fd, a, parse) == v
  {
  }

  /**
   * One pass makes exactly the callbacks of the ready descriptors, in ascending order, each decided by its
   * descriptor's state at the snapshot: although accepting and closing change the live sets and fd_max on the
   * way, no readiness is lost and none is applied to a number that was closed and accepted again.
   */
  lemma PassMakes<H>(s: Server<H>, round: Round, parse: Parser<H>)
    requires Inv(s) && RoundFits(s, round, parse)
    ensures var r, es := Pass(s, round.rd, round.wr, 3, round.answers, parse), PassLog(s, round);
            && Inv(r) && r.log == s.log + es
            && NewIsLast(es) && NewAreBehind(es, r.open, round.rd, round.wr)
            && forall j: nat :: j < TCP_MAX_CTX && !Accepted(es, j) ==>
                 ViewOf(r, j) == OwnView(ViewOf(s, j), j in round.rd, j in round.wr, j, round.answers[j], parse)
  {
    hide Inv, Current, PassFits, Pass, Expected, NewIsLast, NewAreBehind, Accepted, OwnView;
    InvShape(s);
    SnapshotCurrent(s, round.rd, round.wr);
    ProgressBegins(s, round.rd, round.wr, round.answers, parse);
    var es, end := PassProgress(s, s, [], round.rd, round.wr, 3, round.answers, parse);
    var r := Pass(s, round.rd, round.wr, 3, round.answers, parse);
    InvShape(r);
    InterestSets(s);
    assert forall j: nat :: end <= j || j < 3 ==> j !in round.rd + round.wr;
    ExpectedEnds(s, round.rd, round.wr, end, TCP_MAX_CTX, round.answers);
    forall j: nat | j < TCP_MAX_CTX && !Accepted(es, j)
      ensures ViewOf(r, j) == OwnView(ViewOf(s, j), j in round.rd, j in round.wr, j, round.answers[j], parse)
    {
      NotReadyStays(ViewOf(s, j), j, round.answers[j], parse);
    }
  }

  lemma ReadyHasEvent<H>(s: Server<H>, rd: set<nat>, wr: set<nat>, fd: nat, a: Answer)
    requires Inv(s) && rd <= s.read && wr <= s.write && fd in rd + wr
    ensures fd < TCP_MAX_CTX && |EventFor(ViewOf(s, fd), fd in rd, fd in wr, fd, a)| == 1
  {
    hide Inv;
    InterestSets(s);
    InvShape(s);
  }

  ghost predicate Called<H>(es: seq<Event<H>>, fd: nat) {
    exists p :: 0 <= p < |es| && Cause(es[p]) == fd
  }

  ghost predicate Ascending<H>(es: seq<Event<H>>) {
    forall p, q :: 0 <= p < q < |es| ==> Cause(es[p]) < Cause(es[q])
  }

  lemma CalledMore<H>(es: seq<Event<H>>, more: seq<Event<H>>, fd: nat, j: nat)
    requires |more| <= 1 && (more != [] ==> Cause(more[0]) == fd)
    ensures Called(es + more, j) <==> Called(es, j) || (more != [] && j == fd)
  {
    if Called(es, j) {
      var p :| 0 <= p < |es| && Cause(es[p]) == j;
      assert (es + more)[p] == es[p];
    }
    if more != [] {
      assert (es + more)[|es|] == more[0];
    }
  }

  lemma {:induction false} ExpectedCalls<H>(s: Server<H>, rd: set<nat>, wr: set<nat>, n: nat, answers: seq<Answer>)
    requires Inv(s) && rd <= s.read && wr <= s.write && n <= TCP_MAX_CTX == |answers|
    ensures Shape(s) && Ascending(Expected(s, rd, wr, n, answers))
    ensures forall p :: 0 <= p < |Expected(s, rd, wr, n, answers)| ==> Cause(Expected(s, rd, wr, n, answers)[p]) < n
    ensures forall j: nat :: Called(Expected(s, rd, wr, n, answers), j) <==> 3 <= j < n && j in rd + wr
  {
    hide Inv, EventFor;
    InvShape(s);
    if n > 3 {
      ExpectedCalls(s, rd, wr, n - 1, answers);
      var es := Expected(s, rd, wr, n - 1, answers);
      var more := EventFor(ViewOf(s, n - 1), n - 1 in rd, n - 1 in wr, n - 1, answers[n - 1]);
      if n - 1 in rd + wr {
        ReadyHasEvent(s, rd, wr, n - 1, answers[n - 1]);
      }
      forall j: nat ensures Called(es + more, j) <==> Called(es, j) || (more != [] && j == n - 1) {
        CalledMore(es, more, n - 1, j);
      }
    }
  }

  /** Exactly one callback for each ready descriptor, in ascending order. */
  lemma OneCallbackEach<H>(s: Server<H>, round: Round, parse: Parser<H>)
    requires Inv(s) && RoundFits(s, round, parse)
    ensures var es := PassLog(s, round);
            Ascending(es) && forall j: nat :: Called(es, j) <==> j in round.rd + round.wr
  {
    hide Inv, Expected, Called, Ascending;
    ExpectedCalls(s, round.rd, round.wr, TCP_MAX_CTX, round.answers);
    InterestSets(s);
  }
}
