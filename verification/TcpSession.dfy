/**
 * What one descriptor sees of a whole run: sessions that begin with the new connection,
 * alternate requests and responses, and end with the close, whatever else the server
 * does in between.
 */
module TcpSession {
  import opened Wrappers
  import opened TcpModel
  import opened TcpTrace

  // --------------------------------------------------- one connection by itself

  /** A descriptor without a connection, one that waits for a request, one that owes a response. */
  datatype Phase<H> = Idle(http: H) | Reading(http: H) | Writing(http: H)

  function PhaseOf<H>(v: View<H>): Phase<H> {
    if v.entry.fdState != Connected then Idle(v.http) else if v.reading then Reading(v.http) else Writing(v.http)
  }

  /** The protocol: a response is made from the context its request left. */
  ghost function Next<H>(p: Phase<H>, e: Event<H>, parse: Parser<H>): Option<Phase<H>> {
    match e
    case New(_, _) => if p.Idle? then Some(Reading(p.http)) else None
    case Received(_, data) => if p.Reading? then Some(Writing(parse(p.http, data))) else None
    case Sent(_, http) => if p.Writing? && http == p.http then Some(Reading(p.http)) else None
    case Close(_) => if p.Reading? then Some(Idle(p.http)) else None
  }

  ghost function Replay<H>(p: Phase<H>, es: seq<Event<H>>, parse: Parser<H>): Option<Phase<H>> {
    if es == [] then Some(p)
    else
      var q := Replay(p, es[..|es| - 1], parse);
      if q.None? then None else Next(q.value, es[|es| - 1], parse)
  }

  /** The callbacks on one descriptor. */
  function EventsOn<H>(log: seq<Event<H>>, j: nat): (es: seq<Event<H>>)
    ensures forall i :: 0 <= i < |es| ==> es[i].fd == j && es[i] in log
  {
    if log == [] then []
    else EventsOn(log[..|log| - 1], j) + (if log[|log| - 1].fd == j then [log[|log| - 1]] else [])
  }

  // ------------------------------------------------- the server obeys the protocol

  lemma EventsOnMore<H>(log: seq<Event<H>>, more: seq<Event<H>>, j: nat)
    requires |more| <= 1
    ensures EventsOn(log + more, j) == EventsOn(log, j) + (if more != [] && more[0].fd == j then more else [])
  {
    if more == [] {
      assert log + more == log;
    } else {
      assert (log + more)[..|log + more| - 1] == log;
      assert (log + more)[|log|] == more[0];
    }
  }

  lemma ReplayMore<H>(p: Phase<H>, es: seq<Event<H>>, e: Event<H>, parse: Parser<H>)
    requires Replay(p, es, parse).Some?
    ensures Replay(p, es + [e], parse) == Next(Replay(p, es, parse).value, e, parse)
  {
    assert (es + [e])[..|es|] == es;
  }

  lemma CurrentHere<H>(s: Server<H>, rd: set<nat>, wr: set<nat>, fd: nat)
    requires Current(s, rd, wr, fd)
    ensures CurrentAt(s, rd, wr, fd)
  {
  }

  lemma InvGood<H>(s: Server<H>, j: nat)
    requires Inv(s) && j < TCP_MAX_CTX
    ensures Good(ViewOf(s, j), j, s.fdMax)
  {
  }

  /** A visit takes each descriptor one step along the protocol if it was called back, and not at all otherwise. */
  lemma VisitPhase<H>(s: Server<H>, rd: set<nat>, wr: set<nat>, fd: nat, a: Answer, parse: Parser<H>, j: nat)
    requires Inv(s) && Current(s, rd, wr, fd) && fd < TCP_MAX_CTX && Fits(s, rd, fd, a) && j < TCP_MAX_CTX
    ensures var more := EventFor(ViewOf(s, fd), fd in rd, fd in wr, fd, a);
            var p, q := PhaseOf(ViewOf(s, j)), PhaseOf(ViewOf(Visit(s, rd, wr, fd, a, parse), j));
            if more != [] && more[0].fd == j then Next(p, more[0], parse) == Some(q) else p == q
  {
    hide Visit, Inv, Current;
    InvShape(s);
    CurrentHere(s, rd, wr, fd);
    InterestSets(s);
    InvGood(s, fd);
    InvGood(s, j);
    Isolation(s, rd, wr, fd, a, parse, j);
  }

  /**
   * A read that fails on a connection is handled as a request without data, and only the
   * end of the stream closes it.
   */
  lemma FailedReadIsData<H>(s: Server<H>, rd: set<nat>, wr: set<nat>, fd: nat, a: Answer, parse: Parser<H>)
    requires Inv(s) && fd < TCP_MAX_CTX && a.accepted < TCP_MAX_CTX && fd in rd && IsConnection(s, fd)
    ensures var r := Visit(s, rd, wr, fd, a, parse);
            && (a.received == Failed ==> r.log == s.log + [Received(fd, [])] && fd in r.write && fd !in r.read)
            && (a.received.Bytes? && a.received.data != [] ==>
                  r.log == s.log + [Received(fd, a.received.data)] && fd in r.write && fd !in r.read)
            && (a.received == Bytes([]) ==> r.log == s.log + [Close(fd)] && fd !in r.read && fd !in r.open)
  {
  }

  /** The callbacks on j so far replay to the phase j is in. */
  ghost predicate Tracks<H>(s: Server<H>, start: Phase<H>, j: nat, parse: Parser<H>)
    requires Shape(s) && j < TCP_MAX_CTX
  {
    Replay(start, EventsOn(s.log, j), parse) == Some(PhaseOf(ViewOf(s, j)))
  }

  lemma VisitTracks<H>(s: Server<H>, rd: set<nat>, wr: set<nat>, fd: nat, a: Answer, parse: Parser<H>, start: Phase<H>,
                       j: nat)
    requires Inv(s) && Current(s, rd, wr, fd) && fd < TCP_MAX_CTX && Fits(s, rd, fd, a) && j < TCP_MAX_CTX
    requires Tracks(s, start, j, parse)
    ensures Tracks(Visit(s, rd, wr, fd, a, parse), start, j, parse)
  {
    hide Visit, Inv, Current, EventsOn, Replay, Next, PhaseOf, EventFor;
    InvShape(s);
    var more := EventFor(ViewOf(s, fd), fd in rd, fd in wr, fd, a);
    VisitPhase(s, rd, wr, fd, a, parse, j);
    VisitLog(s, rd, wr, fd, a, parse);
    EventsOnMore(s.log, more, j);
    if more != [] && more[0].fd == j {
      assert more == [more[0]];
      ReplayMore(start, EventsOn(s.log, j), more[0], parse);
    } else {
      assert EventsOn(s.log, j) + [] == EventsOn(s.log, j);
    }
  }

  lemma {:induction false} PassTracks<H>(s: Server<H>, rd: set<nat>, wr: set<nat>, fd: nat, answers: seq<Answer>,
                                         parse: Parser<H>, start: Phase<H>, j: nat)
    requires Inv(s) && Current(s, rd, wr, fd)
    requires |answers| == TCP_MAX_CTX && (forall i :: 0 <= i < |answers| ==> answers[i].accepted < TCP_MAX_CTX)
    requires PassFits(s, rd, wr, fd, answers, parse) && j < TCP_MAX_CTX && Tracks(s, start, j, parse)
    ensures Tracks(Pass(s, rd, wr, fd, answers, parse), start, j, parse)
    decreases TCP_MAX_CTX - fd
  {
    hide Visit, Inv, Current, Fits, Tracks;
    InvShape(s);
    if fd <= s.fdMax {
      VisitKeeps(s, rd, wr, fd, answers[fd], parse);
      VisitTracks(s, rd, wr, fd, answers[fd], parse, start, j);
      PassTracks(Visit(s, rd, wr, fd, answers[fd], parse), rd, wr, fd + 1, answers, parse, start, j);
    }
  }

  lemma {:induction false} RunTracks<H>(s: Server<H>, rounds: seq<Round>, parse: Parser<H>, start: Phase<H>, j: nat)
    requires Inv(s) && RunFits(s, rounds, parse) && j < TCP_MAX_CTX && Tracks(s, start, j, parse)
    ensures Inv(Run(s, rounds, parse)) && Tracks(Run(s, rounds, parse), start, j, parse)
    decreases |rounds|
  {
    hide Inv, Current, Pass, PassFits, Tracks;
    if rounds != [] {
      var round := rounds[0];
      SnapshotCurrent(s, round.rd, round.wr);
      PassKeeps(s, round.rd, round.wr, 3, round.answers, parse);
      PassTracks(s, round.rd, round.wr, 3, round.answers, parse, start, j);
      RunTracks(Pass(s, round.rd, round.wr, 3, round.answers, parse), rounds[1..], parse, start, j);
    }
  }

  /**
   * Over every run, under every interleaving with other connections, the callbacks on one descriptor are
   * those of the protocol of a single connection, and its state is where they lead.
   */
  lemma RunIsSessions<H>(s: Server<H>, rounds: seq<Round>, parse: Parser<H>, j: nat)
    requires Inv(s) && s.log == [] && RunFits(s, rounds, parse) && j < TCP_MAX_CTX
    ensures var r := Run(s, rounds, parse);
            Inv(r) && Replay(PhaseOf(ViewOf(s, j)), EventsOn(r.log, j), parse) == Some(PhaseOf(ViewOf(r, j)))
  {
    assert Tracks(s, PhaseOf(ViewOf(s, j)), j, parse);
    RunTracks(s, rounds, parse, PhaseOf(ViewOf(s, j)), j);
  }

  // ------------------------------------------------------ what the protocol means

  /** The context after every request of the list has been parsed into it, in order. */
  ghost function ContextAfter<H>(http: H, es: seq<Event<H>>, parse: Parser<H>): H {
    if es == [] then http
    else
      var before := ContextAfter(http, es[..|es| - 1], parse);
      if es[|es| - 1].Received? then parse(before, es[|es| - 1].data) else before
  }

  /** Which callback may come right after which, the first one after none. */
  predicate MayFollow<H>(before: Option<Event<H>>, e: Event<H>) {
    match e
    case New(_, _) => before.None? || before.value.Close?
    case Received(_, _) => before.Some? && (before.value.New? || before.value.Sent?)
    case Sent(_, _) => before.Some? && before.value.Received?
    case Close(_) => before.Some? && (before.value.New? || before.value.Sent?)
  }

  ghost predicate Reaches<H>(last: Option<Event<H>>, p: Phase<H>) {
    match p
    case Idle(_) => last.None? || last.value.Close?
    case Reading(_) => last.Some? && (last.value.New? || last.value.Sent?)
    case Writing(_) => last.Some? && last.value.Received?
  }

  function Last<T>(es: seq<T>): Option<T> {
    if es == [] then None else Some(es[|es| - 1])
  }

  /** The sequences of callbacks in which each may follow the one before and each response shows all requests so far. */
  ghost predicate InOrder<H>(http: H, es: seq<Event<H>>, parse: Parser<H>) {
    && (forall i :: 0 <= i < |es| ==> MayFollow(Last(es[..i]), es[i]))
    && (forall i :: 0 <= i < |es| && es[i].Sent? ==> es[i].http == ContextAfter(http, es[..i], parse))
  }

  lemma InOrderMore<H>(http: H, es: seq<Event<H>>, e: Event<H>, parse: Parser<H>)
    ensures InOrder(http, es + [e], parse)
            <==> InOrder(http, es, parse) && MayFollow(Last(es), e)
                 && (e.Sent? ==> e.http == ContextAfter(http, es, parse))
  {
    hide ContextAfter, MayFollow, Last;
    var all := es + [e];
    assert all[..|es|] == es && all[|es|] == e;
    assert forall i :: 0 <= i < |es| ==> all[i] == es[i] && all[..i] == es[..i];
  }

  lemma NothingInOrder<H>(http: H, parse: Parser<H>)
    ensures InOrder(http, [], parse)
  {
  }

  /**
   * A sequence of callbacks on an idle descriptor is one of the protocol exactly when it is a prefix of
   * NEW (RECEIVED SENT)* CLOSE, repeated, in which each response is made from the requests received so far.
   */
  lemma {:induction false} ReplayIffInOrder<H>(http: H, es: seq<Event<H>>, parse: Parser<H>)
    ensures Replay(Idle(http), es, parse).Some? <==> InOrder(http, es, parse)
    ensures Replay(Idle(http), es, parse).Some? ==>
              Reaches(Last(es), Replay(Idle(http), es, parse).value)
              && Replay(Idle(http), es, parse).value.http == ContextAfter(http, es, parse)
    decreases |es|
  {
    hide InOrder;
    if es == [] {
      NothingInOrder(http, parse);
    } else {
      var init, e := es[..|es| - 1], es[|es| - 1];
      assert es == init + [e];
      ReplayIffInOrder(http, init, parse);
      InOrderMore(http, init, e, parse);
    }
  }

  /** So in every run no response comes before its request or twice, and no close while one is owed. */
  lemma SessionsInOrder<H>(s: Server<H>, rounds: seq<Round>, parse: Parser<H>, j: nat)
    requires Inv(s) && s.log == [] && RunFits(s, rounds, parse) && j < TCP_MAX_CTX && s.ctx[j].fdState != Connected
    ensures Inv(Run(s, rounds, parse))
    ensures InOrder(s.http[j], EventsOn(Run(s, rounds, parse).log, j), parse)
    ensures Run(s, rounds, parse).http[j] == ContextAfter(s.http[j], EventsOn(Run(s, rounds, parse).log, j), parse)
  {
    hide Inv, Replay, EventsOn, ContextAfter, InOrder;
    InvShape(s);
    RunIsSessions(s, rounds, parse, j);
    ReplayIffInOrder(s.http[j], EventsOn(Run(s, rounds, parse).log, j), parse);
  }
}
