/**
 * Setting the server up: what socket, bind and the initialisation of the interest sets
 * leave, and when that is a state the event loop can run from.
 */
module TcpCreate {
  import opened TcpModel

  function SocketCreated<H>(s: Server<H>, n: nat): Server<H>
    requires n < |s.ctx|
  {
    s.(ctx := s.ctx[n := s.ctx[n].(fdState := Created)], open := s.open + {n})
  }

  /** A bind that fails leaves everything as it is. */
  function Bound<H>(s: Server<H>, n: nat, ok: bool): Server<H>
    requires n < |s.ctx|
  {
    if !ok then s
    else s.(ctx := s.ctx[n := s.ctx[n].(fdState := Listen, listenFd := n)], fdMax := if s.fdMax < n then n else s.fdMax)
  }

  predicate IsListed(e: Entry) {
    e.fdState == Created || e.fdState == Listen
  }

  /** The listen descriptors of the first k entries. */
  function ListenFds(ctx: seq<Entry>, k: nat): (fds: set<nat>)
    requires k <= |ctx|
    ensures forall x :: x in fds <==> exists i :: 0 <= i < k && IsListed(ctx[i]) && ctx[i].listenFd == x
  {
    if k == 0 then {} else ListenFds(ctx, k - 1) + (if IsListed(ctx[k - 1]) then {ctx[k - 1].listenFd} else {})
  }

  /** The greatest of them, -1 if there are none. */
  function MaxListen(ctx: seq<Entry>, k: nat): (m: int)
    requires k <= |ctx|
    ensures -1 <= m && (m == -1 <==> ListenFds(ctx, k) == {})
    ensures forall x :: x in ListenFds(ctx, k) ==> x <= m
    ensures m >= 0 ==> m in ListenFds(ctx, k)
  {
    if k == 0 then -1
    else
      var m := MaxListen(ctx, k - 1);
      if IsListed(ctx[k - 1]) && ctx[k - 1].listenFd > m then ctx[k - 1].listenFd else m
  }

  lemma OneMoreEntry(ctx: seq<Entry>, k: nat)
    requires k < |ctx|
    ensures ListenFds(ctx, 0) == {} && MaxListen(ctx, 0) == -1
    ensures IsListed(ctx[k]) ==>
              && ListenFds(ctx, k + 1) == ListenFds(ctx, k) + {ctx[k].listenFd}
              && MaxListen(ctx, k + 1)
                 == if MaxListen(ctx, k) > ctx[k].listenFd then MaxListen(ctx, k) else ctx[k].listenFd
    ensures !IsListed(ctx[k]) ==>
              ListenFds(ctx, k + 1) == ListenFds(ctx, k) && MaxListen(ctx, k + 1) == MaxListen(ctx, k)
  {
  }

  /** Both sets start anew; fd_max stays if there is nothing to listen on. */
  function IomuxInit<H>(s: Server<H>): Server<H> {
    var m := MaxListen(s.ctx, |s.ctx|);
    s.(read := ListenFds(s.ctx, |s.ctx|), write := {}, fdMax := if m == -1 then s.fdMax else m)
  }

  function InstanceCreated<H>(s: Server<H>, n: nat, bindOk: bool): Server<H>
    requires n < |s.ctx|
  {
    IomuxInit(Register(Bound(SocketCreated(s, n), n, bindOk), n, true))
  }

  /** The global state before main. */
  ghost predicate Zeroed<H>(s: Server<H>) {
    && |s.ctx| == TCP_MAX_CTX && |s.http| == HTTP_CTX && s.fdMax == 0 && s.read == {} && s.write == {} && s.log == []
    && forall j :: 0 <= j < TCP_MAX_CTX ==> s.ctx[j] == Entry(Err, 0, 0, false)
  }

  /** What holds of an entry whatever set-ups and passes have gone before, also after a failed bind. */
  predicate EntryOk(e: Entry, j: nat, isOpen: bool) {
    match e.fdState
    case Listen => e.listenFd == j && 3 <= j && isOpen && e.registered
    case Created => e.listenFd == 0 && isOpen
    case Connected => e.listenFd == 0 && isOpen
    case _ => e.listenFd == 0
  }

  ghost predicate Entries<H>(s: Server<H>) {
    Shape(s) && forall j: nat :: j < TCP_MAX_CTX ==> EntryOk(s.ctx[j], j, j in s.open)
  }

  /** Some entry was left unbound. */
  ghost predicate Unbound<H>(s: Server<H>) {
    Shape(s) && exists j: nat :: j < TCP_MAX_CTX && s.ctx[j].fdState == Created
  }

  ghost predicate Serving<H>(s: Server<H>) {
    Shape(s) && exists j: nat :: j < TCP_MAX_CTX && s.ctx[j].fdState == Connected
  }

  ghost predicate Fresh<H>(s: Server<H>, n: nat) {
    3 <= n < TCP_MAX_CTX && n !in s.open
  }

  lemma EntriesAfter<H>(s: Server<H>, n: nat, bindOk: bool)
    requires Shape(s) && n < TCP_MAX_CTX
    ensures var r := InstanceCreated(s, n, bindOk);
            && |r.ctx| == TCP_MAX_CTX && r.http == s.http && r.open == s.open + {n} && r.log == s.log
            && r.ctx == s.ctx[n := if bindOk then s.ctx[n].(fdState := Listen, listenFd := n, registered := true)
                                   else s.ctx[n].(fdState := Created, registered := true)]
            && r.write == {} && r.read == ListenFds(r.ctx, TCP_MAX_CTX)
            && r.ctx[n].listenFd in r.read && r.fdMax == MaxListen(r.ctx, TCP_MAX_CTX)
  {
    hide ListenFds, MaxListen;
    var e := s.ctx[n];
    var t := Register(Bound(SocketCreated(s, n), n, bindOk), n, true);
    assert t.ctx == s.ctx[n := if bindOk then e.(fdState := Listen, listenFd := n, registered := true)
                               else e.(fdState := Created, registered := true)];
    assert IsListed(t.ctx[n]);
  }

  lemma ReadIsListeners<H>(r: Server<H>)
    requires |r.ctx| == TCP_MAX_CTX && r.read == ListenFds(r.ctx, TCP_MAX_CTX)
    requires forall i: nat :: i < TCP_MAX_CTX ==>
               r.ctx[i].fdState != Created && (r.ctx[i].fdState == Listen ==> r.ctx[i].listenFd == i)
    ensures forall j: nat :: j in r.read <==> j < TCP_MAX_CTX && r.ctx[j].fdState == Listen
  {
    hide ListenFds;
    forall j: nat | j < TCP_MAX_CTX && r.ctx[j].fdState == Listen ensures j in r.read {
      assert IsListed(r.ctx[j]);
    }
  }

  /** An entry that was created but not bound has listen descriptor 0. */
  lemma UnboundReads0<H>(s: Server<H>, n: nat, bindOk: bool)
    requires Entries(s) && Fresh(s, n) && (!bindOk || Unbound(s))
    ensures !Inv(InstanceCreated(s, n, bindOk))
  {
    hide Inv, InstanceCreated, ListenFds, MaxListen;
    var r := InstanceCreated(s, n, bindOk);
    EntriesAfter(s, n, bindOk);
    assert EntryOk(s.ctx[n], n, n in s.open);
    var j: nat := n;
    if bindOk {
      j :| j < TCP_MAX_CTX && s.ctx[j].fdState == Created;
      assert EntryOk(s.ctx[j], j, j in s.open);
    }
    assert IsListed(r.ctx[j]) && r.ctx[j].listenFd == 0;
    assert 0 in r.read;
    if Inv(r) {
      InterestSets(r);
    }
  }

  /** A successful set-up without unbound entries reads from the listeners alone. */
  lemma ReadsListeners<H>(s: Server<H>, n: nat)
    requires Entries(s) && Fresh(s, n) && !Unbound(s)
    ensures var r := InstanceCreated(s, n, true);
            && Shape(r) && r.write == {}
            && forall j: nat :: j in r.read <==> j < TCP_MAX_CTX && r.ctx[j].fdState == Listen
  {
    hide InstanceCreated, ListenFds, MaxListen;
    EntriesAfter(s, n, true);
    var r := InstanceCreated(s, n, true);
    forall i: nat | i < TCP_MAX_CTX
      ensures r.ctx[i].fdState != Created && (r.ctx[i].fdState == Listen ==> r.ctx[i].listenFd == i)
    {
      assert EntryOk(s.ctx[i], i, i in s.open);
    }
    ReadIsListeners(r);
  }

  lemma ConnectedIsWaited<H>(s: Server<H>, j: nat)
    requires Inv(s) && j < TCP_MAX_CTX && s.ctx[j].fdState == Connected
    ensures j in s.read || j in s.write
  {
    assert Good(ViewOf(s, j), j, s.fdMax);
  }

  /** A connection is no longer in either set. */
  lemma ConnectionForgotten<H>(s: Server<H>, n: nat)
    requires Entries(s) && Fresh(s, n) && !Unbound(s) && Serving(s)
    ensures !Inv(InstanceCreated(s, n, true))
  {
    hide Inv, InstanceCreated, ListenFds, MaxListen, Good;
    var r := InstanceCreated(s, n, true);
    var j: nat :| j < TCP_MAX_CTX && s.ctx[j].fdState == Connected;
    assert EntryOk(s.ctx[j], j, j in s.open);
    EntriesAfter(s, n, true);
    ReadsListeners(s, n);
    if Inv(r) {
      ConnectedIsWaited(r, j);
    }
  }

  lemma ListenerOrIdleGood<H>(v: View<H>, j: nat, fdMax: int)
    requires !v.writing && (v.reading <==> v.entry.fdState == Listen) && (v.reading ==> j <= fdMax)
    requires v.entry.fdState != Connected && EntryOk(v.entry, j, v.isOpen)
    ensures Good(v, j, fdMax)
  {
  }

  lemma NotServing<H>(s: Server<H>, j: nat)
    requires Shape(s) && !Serving(s) && j < TCP_MAX_CTX
    ensures s.ctx[j].fdState != Connected
  {
  }

  lemma CreatedGood<H>(s: Server<H>, n: nat, j: nat)
    requires Entries(s) && Fresh(s, n) && !Unbound(s) && !Serving(s) && j < TCP_MAX_CTX
    ensures Shape(InstanceCreated(s, n, true))
    ensures Good(ViewOf(InstanceCreated(s, n, true), j), j, InstanceCreated(s, n, true).fdMax)
  {
    hide InstanceCreated, ListenFds, MaxListen, Good, Unbound, Serving;
    var r := InstanceCreated(s, n, true);
    EntriesAfter(s, n, true);
    ReadsListeners(s, n);
    NotServing(s, j);
    assert EntryOk(s.ctx[j], j, j in s.open);
    ListenerOrIdleGood(ViewOf(r, j), j, r.fdMax);
  }

  lemma CreatedInv<H>(s: Server<H>, n: nat)
    requires Entries(s) && Fresh(s, n) && !Unbound(s) && !Serving(s)
    ensures Inv(InstanceCreated(s, n, true))
  {
    hide InstanceCreated, ListenFds, MaxListen, Good;
    var r := InstanceCreated(s, n, true);
    ReadsListeners(s, n);
    forall j: nat | j < TCP_MAX_CTX ensures Good(ViewOf(r, j), j, r.fdMax) {
      CreatedGood(s, n, j);
    }
  }

  /**
   * The event loop can run from the created state exactly when the bind succeeded, no entry had been left
   * unbound and no connection was being served: a failed bind puts descriptor 0 into the read set, and starting
   * again drops every connection from the sets.
   */
  lemma CreatedIffBound<H>(s: Server<H>, n: nat, bindOk: bool)
    requires Entries(s) && Fresh(s, n)
    ensures Inv(InstanceCreated(s, n, bindOk)) <==> bindOk && !Unbound(s) && !Serving(s)
  {
    hide Inv, InstanceCreated;
    if !bindOk || Unbound(s) {
      UnboundReads0(s, n, bindOk);
    } else if Serving(s) {
      ConnectionForgotten(s, n);
    } else {
      CreatedInv(s, n);
    }
  }

  // -------------------------------------------------- set-ups and passes in any order

  datatype Act = SetUp(n: nat, bindOk: bool) | Loop(round: Round)

  ghost predicate ActFits<H>(s: Server<H>, act: Act, parse: Parser<H>) {
    Shape(s) && match act case SetUp(n, _) => Fresh(s, n) case Loop(round) => RoundFits(s, round, parse)
  }

  ghost function Do<H>(s: Server<H>, act: Act, parse: Parser<H>): Server<H>
    requires ActFits(s, act, parse)
  {
    match act
    case SetUp(n, bindOk) => InstanceCreated(s, n, bindOk)
    case Loop(round) => Pass(s, round.rd, round.wr, 3, round.answers, parse)
  }

  lemma VisitEntries<H>(s: Server<H>, rd: set<nat>, wr: set<nat>, fd: nat, a: Answer, parse: Parser<H>)
    requires Entries(s) && fd < TCP_MAX_CTX && Fits(s, rd, fd, a)
    ensures var r := Visit(s, rd, wr, fd, a, parse);
            Entries(r) &&
            forall j: nat :: j < TCP_MAX_CTX ==> (r.ctx[j].fdState == Created <==> s.ctx[j].fdState == Created)
  {
    hide Visit;
    var r := Visit(s, rd, wr, fd, a, parse);
    assert EntryOk(s.ctx[fd], fd, fd in s.open);
    forall j: nat | j < TCP_MAX_CTX
      ensures EntryOk(r.ctx[j], j, j in r.open) && (r.ctx[j].fdState == Created <==> s.ctx[j].fdState == Created)
    {
      assert EntryOk(s.ctx[j], j, j in s.open);
      Isolation(s, rd, wr, fd, a, parse, j);
      assert ViewOf(r, j).entry == r.ctx[j] && ViewOf(r, j).isOpen == (j in r.open);
    }
  }

  lemma {:induction false} PassEntries<H>(s: Server<H>, rd: set<nat>, wr: set<nat>, fd: nat, answers: seq<Answer>,
                                          parse: Parser<H>)
    requires Entries(s) && |answers| == TCP_MAX_CTX
    requires forall i :: 0 <= i < |answers| ==> answers[i].accepted < TCP_MAX_CTX
    requires PassFits(s, rd, wr, fd, answers, parse)
    ensures var r := Pass(s, rd, wr, fd, answers, parse); Entries(r) && (Unbound(r) <==> Unbound(s))
    decreases TCP_MAX_CTX - fd
  {
    hide Visit, EntryOk, Fits;
    if fd <= s.fdMax {
      VisitEntries(s, rd, wr, fd, answers[fd], parse);
      var r := Visit(s, rd, wr, fd, answers[fd], parse);
      PassEntries(r, rd, wr, fd + 1, answers, parse);
      assert Unbound(r) <==> Unbound(s);
    }
  }

  lemma MaxIsSmall<H>(r: Server<H>)
    requires |r.ctx| == TCP_MAX_CTX && forall j: nat :: j < TCP_MAX_CTX ==> EntryOk(r.ctx[j], j, j in r.open)
    ensures MaxListen(r.ctx, TCP_MAX_CTX) < TCP_MAX_CTX
  {
    hide MaxListen;
    var m := MaxListen(r.ctx, TCP_MAX_CTX);
    if m >= 0 {
      var i :| 0 <= i < TCP_MAX_CTX && IsListed(r.ctx[i]) && r.ctx[i].listenFd == m;
      assert EntryOk(r.ctx[i], i, i in r.open);
    }
  }

  lemma SetUpEntries<H>(s: Server<H>, n: nat, bindOk: bool)
    requires Entries(s) && Fresh(s, n)
    ensures var r := InstanceCreated(s, n, bindOk); Entries(r) && (Unbound(r) <==> Unbound(s) || !bindOk)
  {
    hide InstanceCreated, ListenFds, MaxListen;
    var r := InstanceCreated(s, n, bindOk);
    EntriesAfter(s, n, bindOk);
    assert EntryOk(s.ctx[n], n, n in s.open);
    forall j: nat | j < TCP_MAX_CTX ensures EntryOk(r.ctx[j], j, j in r.open) {
      assert EntryOk(s.ctx[j], j, j in s.open);
    }
    MaxIsSmall(r);
    if !bindOk {
      assert r.ctx[n].fdState == Created;
    }
    assert forall j: nat :: j < TCP_MAX_CTX && j != n ==> r.ctx[j] == s.ctx[j];
  }

  ghost predicate ActsFit<H>(s: Server<H>, acts: seq<Act>, parse: Parser<H>)
    decreases |acts|
  {
    acts != [] ==> ActFits(s, acts[0], parse) && ActsFit(Do(s, acts[0], parse), acts[1..], parse)
  }

  ghost function DoAll<H>(s: Server<H>, acts: seq<Act>, parse: Parser<H>): Server<H>
    requires ActsFit(s, acts, parse)
    decreases |acts|
  {
    if acts == [] then s else DoAll(Do(s, acts[0], parse), acts[1..], parse)
  }

  predicate SomeBindFailed(acts: seq<Act>) {
    exists i :: 0 <= i < |acts| && acts[i].SetUp? && !acts[i].bindOk
  }

  lemma FailedFirstOrLater(acts: seq<Act>)
    requires acts != []
    ensures SomeBindFailed(acts) <==> (acts[0].SetUp? && !acts[0].bindOk) || SomeBindFailed(acts[1..])
  {
    if SomeBindFailed(acts[1..]) {
      var i :| 0 <= i < |acts[1..]| && acts[1..][i].SetUp? && !acts[1..][i].bindOk;
      assert acts[i + 1] == acts[1..][i];
    }
    if i :| 0 < i < |acts| && acts[i].SetUp? && !acts[i].bindOk {
      assert acts[1..][i - 1] == acts[i];
    }
  }

  lemma DoEntries<H>(s: Server<H>, act: Act, parse: Parser<H>)
    requires Entries(s) && ActFits(s, act, parse)
    ensures var r := Do(s, act, parse);
            Entries(r) && (Unbound(r) <==> Unbound(s) || (act.SetUp? && !act.bindOk))
  {
    hide Entries, Unbound, InstanceCreated, Pass, PassFits;
    match act {
      case SetUp(n, bindOk) => SetUpEntries(s, n, bindOk);
      case Loop(round) => PassEntries(s, round.rd, round.wr, 3, round.answers, parse);
    }
  }

  /** Entries stay well-formed whatever is done, and one is left unbound exactly if some bind has failed. */
  lemma {:induction false} ActsKeepEntries<H>(s: Server<H>, acts: seq<Act>, parse: Parser<H>)
    requires Entries(s) && ActsFit(s, acts, parse)
    ensures Entries(DoAll(s, acts, parse))
    ensures Unbound(DoAll(s, acts, parse)) <==> Unbound(s) || SomeBindFailed(acts)
    decreases |acts|
  {
    hide Entries, Unbound, InstanceCreated, Pass, RoundFits;
    if acts != [] {
      var act, rest := acts[0], acts[1..];
      DoEntries(s, act, parse);
      ActsKeepEntries(Do(s, act, parse), rest, parse);
      FailedFirstOrLater(acts);
    }
  }

  lemma ZeroedEntries<H>(s: Server<H>)
    requires Zeroed(s)
    ensures Inv(s) && Entries(s) && !Unbound(s) && !Serving(s)
  {
  }

  /**
   * After any set-ups and passes a further set-up gives a running server exactly when no bind has failed and
   * nobody is served.
   */
  lemma SetUpWorksIff<H>(s: Server<H>, acts: seq<Act>, parse: Parser<H>, n: nat, bindOk: bool)
    requires Zeroed(s) && ActsFit(s, acts, parse) && Fresh(DoAll(s, acts, parse), n)
    ensures Entries(DoAll(s, acts, parse))
    ensures Inv(InstanceCreated(DoAll(s, acts, parse), n, bindOk))
            <==> bindOk && !SomeBindFailed(acts) && !Serving(DoAll(s, acts, parse))
  {
    hide Inv, Entries, Unbound, Serving, ActsFit, DoAll, InstanceCreated;
    ZeroedEntries(s);
    ActsKeepEntries(s, acts, parse);
    CreatedIffBound(DoAll(s, acts, parse), n, bindOk);
  }

  /** From the zeroed state the loop can run exactly when the bind succeeded, and then it waits for connections only. */
  lemma ServerStarts<H>(s: Server<H>, n: nat, bindOk: bool)
    requires Zeroed(s) && Fresh(s, n)
    ensures Shape(s) && Inv(s)
    ensures var r := InstanceCreated(s, n, bindOk);
            && (Inv(r) <==> bindOk) && r.log == [] && r.http == s.http && r.write == {}
            && r.read == {if bindOk then n else 0} && r.fdMax == (if bindOk then n else 0)
            && (bindOk ==> IsListener(r, n))
  {
    hide InstanceCreated, MaxListen, ListenFds, Good;
    ZeroedEntries(s);
    CreatedIffBound(s, n, bindOk);
    EntriesAfter(s, n, bindOk);
    var r := InstanceCreated(s, n, bindOk);
    forall x ensures x in r.read <==> x == r.ctx[n].listenFd {
      assert forall i :: 0 <= i < TCP_MAX_CTX && i != n ==> !IsListed(r.ctx[i]);
    }
    assert r.read == {r.ctx[n].listenFd};
  }
}
