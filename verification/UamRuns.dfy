/**
 * Runs that exist: a client that connects and sends any requests one after the other.
 * They show that what is said about runs is said about something, and that every
 * history of queries is the history of a descriptor in some run.
 */
module UamRuns {
  import opened UrlDecode
  import opened Wrappers
  import opened Scan
  import opened QueryString
  import opened LoginRequest
  import opened RequestHistory
  import opened LoginForm
  import opened TcpModel
  import opened UamServer
  import TcpCreate
  import TcpMain
  import TcpSession
  import Words

  // ---------------------------------------------------------------- a dialogue

  const LISTENER := 3

  const CLIENT := 4

  function Reading(data: seq<Words.Byte>): seq<Answer> {
    seq(TCP_MAX_CTX, _ => Answer(CLIENT, Bytes(data)))
  }

  /** The client connects. */
  function Connect(): Round {
    Round({LISTENER}, {}, Reading([]))
  }

  /** A request is ready to be read, and then there is room for its response. */
  function Exchange(data: seq<Words.Byte>): seq<Round> {
    [Round({CLIENT}, {}, Reading(data)), Round({}, {CLIENT}, Reading([]))]
  }

  function Exchanges(ds: seq<seq<Words.Byte>>): seq<Round> {
    if ds == [] then [] else Exchange(ds[0]) + Exchanges(ds[1..])
  }

  /** The callbacks that the requests bring about, from a context on. */
  ghost function Talk(h: Context, ds: seq<seq<Words.Byte>>, parse: Parser<Context>): seq<Event<Context>>
    decreases |ds|
  {
    if ds == [] then []
    else
      var r := parse(h, ds[0]);
      [Received(CLIENT, ds[0]), Sent(CLIENT, r)] + Talk(r, ds[1..], parse)
  }

  /** The client is connected and nothing is owed to it. */
  ghost predicate Attending(s: Server<Context>) {
    && Shape(s) && s.fdMax == CLIENT && s.read == {LISTENER, CLIENT} && s.write == {}
    && IsListener(s, LISTENER) && IsConnection(s, CLIENT) && CLIENT in s.open
  }

  lemma Request(s: Server<Context>, data: seq<Words.Byte>, parse: Parser<Context>)
    requires Attending(s) && data != []
    ensures RoundFits(s, Exchange(data)[0], parse)
    ensures Pass(s, {CLIENT}, {}, 3, Reading(data), parse) == DataReceived(s, CLIENT, data, parse)
  {
    var answers := Reading(data);
    var t := DataReceived(s, CLIENT, data, parse);
    assert Visit(s, {CLIENT}, {}, 3, answers[3], parse) == s;
    assert Visit(s, {CLIENT}, {}, 4, answers[4], parse) == t;
    assert Pass(t, {CLIENT}, {}, 5, answers, parse) == t;
    assert Pass(s, {CLIENT}, {}, 4, answers, parse) == t;
    assert PassFits(t, {CLIENT}, {}, 5, answers, parse);
    assert PassFits(s, {CLIENT}, {}, 4, answers, parse);
  }

  lemma Respond(s: Server<Context>, parse: Parser<Context>)
    requires Shape(s) && s.fdMax == CLIENT && s.write == {CLIENT}
    ensures RoundFits(s, Round({}, {CLIENT}, Reading([])), parse)
    ensures Pass(s, {}, {CLIENT}, 3, Reading([]), parse) == DataSent(s, CLIENT)
  {
    var answers := Reading([]);
    var t := DataSent(s, CLIENT);
    assert Visit(s, {}, {CLIENT}, 3, answers[3], parse) == s;
    assert Visit(s, {}, {CLIENT}, 4, answers[4], parse) == t;
    assert Pass(t, {}, {CLIENT}, 5, answers, parse) == t;
    assert Pass(s, {}, {CLIENT}, 4, answers, parse) == t;
    assert PassFits(t, {}, {CLIENT}, 5, answers, parse);
    assert PassFits(s, {}, {CLIENT}, 4, answers, parse);
  }

  /** After the two rounds the client is attended to again. */
  lemma ExchangeDone(s: Server<Context>, data: seq<Words.Byte>, parse: Parser<Context>)
    requires Attending(s) && data != []
    ensures var t := DataSent(DataReceived(s, CLIENT, data, parse), CLIENT);
            && Attending(t) && t.http[CLIENT] == parse(s.http[CLIENT], data)
            && t.log == s.log + [Received(CLIENT, data)] + [Sent(CLIENT, parse(s.http[CLIENT], data))]
  {
  }

  lemma TwoRounds(s: Server<Context>, a: Round, b: Round, rest: seq<Round>, parse: Parser<Context>)
    requires RoundFits(s, a, parse)
    requires var t := Pass(s, a.rd, a.wr, 3, a.answers, parse);
             RoundFits(t, b, parse) && RunFits(Pass(t, b.rd, b.wr, 3, b.answers, parse), rest, parse)
    ensures RunFits(s, [a, b] + rest, parse)
    ensures var t := Pass(s, a.rd, a.wr, 3, a.answers, parse);
            Run(s, [a, b] + rest, parse) == Run(Pass(t, b.rd, b.wr, 3, b.answers, parse), rest, parse)
  {
    hide RoundFits, Pass;
    var rounds := [a, b] + rest;
    assert rounds[1..] == [b] + rest && rounds[1..][1..] == rest;
  }

  lemma EventsOnTwo(log: seq<Event<Context>>, data: seq<Words.Byte>, r: Context)
    ensures TcpSession.EventsOn(log + [Received(CLIENT, data)] + [Sent(CLIENT, r)], CLIENT)
            == TcpSession.EventsOn(log, CLIENT) + [Received(CLIENT, data), Sent(CLIENT, r)]
  {
    hide TcpSession.EventsOn;
    TcpSession.EventsOnMore(log, [Received(CLIENT, data)], CLIENT);
    TcpSession.EventsOnMore(log + [Received(CLIENT, data)], [Sent(CLIENT, r)], CLIENT);
  }

  lemma AttendingShape(s: Server<Context>)
    requires Attending(s)
    ensures Shape(s)
  {
  }

  lemma MidOfExchange(s: Server<Context>, data: seq<Words.Byte>, parse: Parser<Context>)
    requires Attending(s)
    ensures var t := DataReceived(s, CLIENT, data, parse); Shape(t) && t.fdMax == CLIENT && t.write == {CLIENT}
  {
  }

  /** Any requests can be sent one after the other. */
  lemma {:induction false} DialogueRuns(s: Server<Context>, ds: seq<seq<Words.Byte>>, parse: Parser<Context>)
    requires Attending(s) && forall i :: 0 <= i < |ds| ==> ds[i] != []
    ensures RunFits(s, Exchanges(ds), parse)
    ensures TcpSession.EventsOn(Run(s, Exchanges(ds), parse).log, CLIENT)
            == TcpSession.EventsOn(s.log, CLIENT) + Talk(s.http[CLIENT], ds, parse)
    decreases |ds|
  {
    hide Attending, RoundFits, Pass, DataReceived, DataSent, TcpSession.EventsOn, Reading;
    if ds == [] {
      assert TcpSession.EventsOn(s.log, CLIENT) + [] == TcpSession.EventsOn(s.log, CLIENT);
    } else {
      AttendingShape(s);
      var data := ds[0];
      var mid := DataReceived(s, CLIENT, data, parse);
      MidOfExchange(s, data, parse);
      var t := DataSent(mid, CLIENT);
      Request(s, data, parse);
      Respond(mid, parse);
      ExchangeDone(s, data, parse);
      DialogueRuns(t, ds[1..], parse);
      TwoRounds(s, Exchange(data)[0], Exchange(data)[1], Exchanges(ds[1..]), parse);
      EventsOnTwo(s.log, data, parse(s.http[CLIENT], data));
      var before, rest := TcpSession.EventsOn(s.log, CLIENT), Talk(t.http[CLIENT], ds[1..], parse);
      var two: seq<Event<Context>> := [Received(CLIENT, data), Sent(CLIENT, t.http[CLIENT])];
      assert (before + two) + rest == before + (two + rest);
    }
  }

  lemma AcceptClient(start: Server<Context>, parse: Parser<Context>) returns (s: Server<Context>)
    requires Shape(start) && start.read == {LISTENER} && start.write == {} && start.fdMax == LISTENER
    requires start.open == {0, 1, 2, LISTENER} && IsListener(start, LISTENER) && start.ctx[LISTENER].registered
    ensures RoundFits(start, Connect(), parse) && s == Pass(start, {LISTENER}, {}, 3, Reading([]), parse)
    ensures Attending(s) && s.http == start.http && s.log == start.log + [New(LISTENER, CLIENT)]
  {
    var answers := Reading([]);
    s := Visit(start, {LISTENER}, {}, 3, answers[3], parse);
    assert Visit(s, {LISTENER}, {}, 4, answers[4], parse) == s;
    assert Pass(s, {LISTENER}, {}, 5, answers, parse) == s;
    assert Pass(s, {LISTENER}, {}, 4, answers, parse) == s;
    assert PassFits(s, {LISTENER}, {}, 5, answers, parse);
    assert PassFits(s, {LISTENER}, {}, 4, answers, parse);
  }

  /** The client connects to the fresh server. */
  lemma Connected(parse: Parser<Context>) returns (s: Server<Context>)
    ensures var start := TcpCreate.InstanceCreated(TcpMain.Start(BlankContext()), LISTENER, true);
            RoundFits(start, Connect(), parse) && s == Pass(start, {LISTENER}, {}, 3, Reading([]), parse)
    ensures Attending(s) && s.http[CLIENT] == BlankContext() && s.log == [New(LISTENER, CLIENT)]
  {
    hide TcpCreate.InstanceCreated, TcpCreate.MaxListen, TcpCreate.ListenFds, BlankContext;
    var start := TcpCreate.InstanceCreated(TcpMain.Start(BlankContext()), LISTENER, true);
    TcpMain.StartZeroed(BlankContext());
    TcpCreate.ServerStarts(TcpMain.Start(BlankContext()), LISTENER, true);
    TcpCreate.EntriesAfter(TcpMain.Start(BlankContext()), LISTENER, true);
    s := AcceptClient(start, parse);
  }

  /** The callbacks on the client's descriptor, from the connection on. */
  ghost function Dialogue(ds: seq<seq<Words.Byte>>, parse: Parser<Context>): seq<Event<Context>> {
    [New(LISTENER, CLIENT)] + Talk(BlankContext(), ds, parse)
  }

  lemma NoEventsYet()
    ensures TcpSession.EventsOn<Context>([], CLIENT) == []
  {
  }

  /** There is a run in which a client sends just these requests. */
  lemma DialogueIsSeen(ds: seq<seq<Words.Byte>>, parse: Parser<Context>)
    requires forall i :: 0 <= i < |ds| ==> ds[i] != []
    ensures Seen(Dialogue(ds, parse), parse)
  {
    hide TcpCreate.InstanceCreated, Attending, Pass, RoundFits, Exchanges, Talk, TcpSession.EventsOn, BlankContext;
    var s := Connected(parse);
    AttendingShape(s);
    var start := TcpCreate.InstanceCreated(TcpMain.Start(BlankContext()), LISTENER, true);
    DialogueRuns(s, ds, parse);
    var rounds := [Connect()] + Exchanges(ds);
    assert rounds[1..] == Exchanges(ds);
    assert RunFits(start, rounds, parse) && Run(start, rounds, parse) == Run(s, Exchanges(ds), parse);
    var connected: seq<Event<Context>> := [New(LISTENER, CLIENT)];
    TcpSession.EventsOnMore([], connected, CLIENT);
    assert [] + connected == connected;
    NoEventsYet();
    assert StartsRun(LISTENER, true, rounds, parse);
    assert Dialogue(ds, parse) == EventsOfRun(LISTENER, true, rounds, parse, CLIENT);
  }

  // ------------------------------------------------------------- texts that can be sent

  lemma LineEndsOnly()
    ensures Lines("\r\n") == []
  {
    assert "\r\n"[1..] == "\n" && "\n"[1..] == "";
  }

  lemma {:induction false} OnlyLine(line: string)
    requires line != "" && forall i :: 0 <= i < |line| ==> !IsLineEnd(line[i])
    ensures Lines(line + "\r\n") == [line]
  {
    hide IsLineEnd;
    var s := line + "\r\n";
    assert s[0] == line[0];
    EndOfLine();
    UntilLineEndUnique(s, |line|);
    assert s[..|line|] == line && s[|line|..] == "\r\n";
    LineEndsOnly();
  }

  /** A request without header lines fits if its line does. */
  lemma BareRequest(verb: string, target: string, proto: string)
    requires Solid(verb) && |verb| < METHOD_SIZE && !HasSpace(proto) && |proto| < METHOD_SIZE
    requires Solid(target) && Until(target, '?') < FIELD_SIZE && |verb| + 1 + |target| + |Ending(proto)| < URI_SIZE
    ensures GoodRequest(verb, target, proto, "")
  {
    hide HasSpace, Ending, Lines, SlotFits;
    var line := verb + " " + (target + Ending(proto));
    LineOf(verb, target, proto);
    assert RequestText(verb, target, proto, "") == line + "\r\n";
    OnlyLine(line);
  }

  /** The bytes of such a request, if it is one of bytes. */
  function Bare(verb: string, target: string, proto: string): seq<Words.Byte> {
    var text := RequestText(verb, target, proto, "");
    if Narrow(text) then Octets(text) else []
  }

  lemma BareText(verb: string, target: string, proto: string)
    requires Wire(verb) && Wire(target) && Wire(proto) && |verb| + 1 + |target| + |Ending(proto)| < URI_SIZE
    ensures Wire(RequestText(verb, target, proto, "")) && 0 < |RequestText(verb, target, proto, "")| < DATA_SIZE
  {
  }

  lemma BareIsRequest(verb: string, target: string, proto: string)
    requires Solid(verb) && |verb| < METHOD_SIZE && !HasSpace(proto) && |proto| < METHOD_SIZE
    requires Solid(target) && Until(target, '?') < FIELD_SIZE && |verb| + 1 + |target| + |Ending(proto)| < URI_SIZE
    requires Wire(verb) && Wire(target) && Wire(proto)
    ensures IsRequest(Bare(verb, target, proto), target) && Bare(verb, target, proto) != []
  {
    hide GoodRequest, HasSpace, CString, Octets, Until, RequestText, Wire, Ending, Solid;
    var text := RequestText(verb, target, proto, "");
    BareText(verb, target, proto);
    BareRequest(verb, target, proto);
    CStringOfOctets(text);
    assert CString(Bare(verb, target, proto)) == text;
  }

  // ------------------------------------------------------------------ a login is answered

  lemma OneTalk(h: Context, data: seq<Words.Byte>, parse: Parser<Context>)
    ensures Talk(h, [data], parse) == [Received(CLIENT, data), Sent(CLIENT, parse(h, data))]
  {
    assert [data][1..] == [];
    assert Talk(parse(h, data), [data][1..], parse) == [];
  }

  /** The shortest run with a login form answers it. */
  lemma ShortestLogin(parse: Parser<Context>, data: seq<Words.Byte>, pairs: seq<Param>, secret: seq<Words.Byte>,
                      login: Login)
    requires Follows(parse) && IsForm(data, "/login_response.html", pairs) && data != [] && CarriesLogin(pairs, login)
    ensures var es := Dialogue([data], parse);
            && Seen(es, parse) && AnswersForm(es, 2, "/login_response.html", pairs)
            && FindsLogin(es[2].http.table, login) && HidesLogin(es[2].http.table, secret, login)
  {
    hide Follows, IsForm, CarriesLogin, Seen, FindsLogin, HidesLogin, BlankContext;
    var es := Dialogue([data], parse);
    DialogueIsSeen([data], parse);
    OneTalk(BlankContext(), data, parse);
    assert es == [New(LISTENER, CLIENT), Received(CLIENT, data), Sent(CLIENT, parse(BlankContext(), data))];
    SensibleLoginIsAnswered(es, parse, 2, pairs, secret, login);
  }

  lemma FixedWords()
    ensures Solid("GET") && Wire("GET") && Solid("HTTP/1.1") && Wire("HTTP/1.1") && |Ending("HTTP/1.1")| == 9
    ensures Wire("/login_response.html") && Solid("G") && Wire("G") && !HasSpace("") && Ending("") == ""
    ensures Solid("/") && Wire("/") && Free("/", '?') && !IsLoginPage("/")
    ensures Solid("/prelogin.html") && Wire("/prelogin.html") && IsLoginPage("/prelogin.html")
  {
  }

  /** Every form of that kind without '%' that fits on a line can be sent. */
  lemma FormIsSent(pairs: seq<Param>)
    requires GoodForm(pairs) && Uncut(FormText(pairs)) && Free(FormText(pairs), '%') && Wire(FormText(pairs))
    requires |FormText(pairs)| <= 470
    ensures var target := Asks("/login_response.html", FormText(pairs));
            && IsForm(Bare("GET", target, "HTTP/1.1"), "/login_response.html", pairs)
            && Bare("GET", target, "HTTP/1.1") != []
  {
    hide GoodForm, FormText, Uncut, IsRequest, Decode, Decodable, HasSpace, Bare, RequestText, Ending, Until;
    var page, d := "/login_response.html", FormText(pairs);
    PageIsSolid(page);
    FormSolid(pairs);
    AsksSplits(page, d);
    UntilUnique(Asks(page, d), '?', |page|);
    FixedWords();
    FreeIsNotIn(d, '%');
    PlainTextStays(d);
    BareIsRequest("GET", Asks(page, d), "HTTP/1.1");
    assert Sends(Bare("GET", Asks(page, d), "HTTP/1.1"), page, d, d);
  }

  // ---------------------------------------------------------- every history is some run's

  lemma LoginPageAlone()
    ensures Split("/prelogin.html", '?') == Fields(Some("/prelogin.html"), None) && Until("/prelogin.html", '?') == 14
  {
    UntilUnique("/prelogin.html", '?', 14);
  }

  /** A query is brought by a request for the root page and parsed by one for a login page. */
  lemma QueryIsBrought(q: string)
    requires Query(q)
    ensures IsRequest(Bare("G", Asks("/", q), ""), Asks("/", q)) && Bare("G", Asks("/", q), "") != []
    ensures IsRequest(Bare("G", "/prelogin.html", ""), "/prelogin.html") && Bare("G", "/prelogin.html", "") != []
    ensures Split(Asks("/", q), '?') == Fields(Some("/"), Some(q))
  {
    hide IsRequest, HasSpace, Bare, RequestText, Parsable;
    FixedWords();
    AsksSplits("/", q);
    UntilUnique(Asks("/", q), '?', 1);
    BareIsRequest("G", Asks("/", q), "");
    LoginPageAlone();
    BareIsRequest("G", "/prelogin.html", "");
  }

  /** Two requests for each query. */
  function Deliver(h: seq<string>): seq<seq<Words.Byte>> {
    if h == [] then [] else [Bare("G", Asks("/", h[0]), ""), Bare("G", "/prelogin.html", "")] + Deliver(h[1..])
  }

  lemma {:induction false} DeliverNotEmpty(h: seq<string>)
    requires History(h)
    ensures forall i :: 0 <= i < |Deliver(h)| ==> Deliver(h)[i] != []
  {
    hide Query, Bare, Asks, IsRequest;
    if h != [] {
      QueryIsBrought(h[0]);
      DeliverNotEmpty(h[1..]);
    }
  }

  lemma QueriesMore(es: seq<Event<Context>>, e: Event<Context>, parse: Parser<Context>)
    requires AllFinish(es, parse) && (e.Received? ==> AlwaysFinishes(ContextOf(es, parse), e.data))
    ensures AllFinish(es + [e], parse)
    ensures Queries(es + [e], parse)
            == Queries(es, parse) + (if e.Received? && Taken(ContextOf(es, parse), e.data, parse).Some?
                                     then [Taken(ContextOf(es, parse), e.data, parse).value] else [])
  {
    hide AlwaysFinishes, Taken, ContextOf;
    assert (es + [e])[..|es|] == es;
  }

  /** One exchange on the descriptor. */
  lemma ExchangeQueries(es: seq<Event<Context>>, data: seq<Words.Byte>, parse: Parser<Context>) returns (r: Context)
    requires AllFinish(es, parse) && AlwaysFinishes(ContextOf(es, parse), data)
    ensures r == parse(ContextOf(es, parse), data)
    ensures var more := es + [Received(CLIENT, data), Sent(CLIENT, r)];
            && AllFinish(more, parse) && ContextOf(more, parse) == r
            && Queries(more, parse) == Queries(es, parse)
                 + (var t := Taken(ContextOf(es, parse), data, parse); if t.Some? then [t.value] else [])
  {
    hide AlwaysFinishes, Taken, ContextOf, AllFinish, Queries;
    r := parse(ContextOf(es, parse), data);
    var one := es + [Received(CLIENT, data)];
    QueriesMore(es, Received(CLIENT, data), parse);
    OneMoreEvent(es, Received(CLIENT, data), parse);
    QueriesMore(one, Sent(CLIENT, r), parse);
    OneMoreEvent(one, Sent(CLIENT, r), parse);
    assert one + [Sent(CLIENT, r)] == es + [Received(CLIENT, data), Sent(CLIENT, r)];
    assert Queries(one, parse) + [] == Queries(one, parse);
  }

  ghost function TwoExchanges(h: Context, d1: seq<Words.Byte>, d2: seq<Words.Byte>,
                              parse: Parser<Context>): seq<Event<Context>> {
    var h1 := parse(h, d1);
    [Received(CLIENT, d1), Sent(CLIENT, h1), Received(CLIENT, d2), Sent(CLIENT, parse(h1, d2))]
  }

  lemma TalkOfTwo(h: Context, d1: seq<Words.Byte>, d2: seq<Words.Byte>, rest: seq<seq<Words.Byte>>,
                  parse: Parser<Context>)
    ensures Talk(h, [d1, d2] + rest, parse)
            == TwoExchanges(h, d1, d2, parse) + Talk(parse(parse(h, d1), d2), rest, parse)
  {
    var ds := [d1, d2] + rest;
    assert ds[1..] == [d2] + rest && ds[1..][1..] == rest;
  }

  /** Two exchanges of which only the second takes a query. */
  lemma TwoExchangesQuery(es: seq<Event<Context>>, d1: seq<Words.Byte>, d2: seq<Words.Byte>, q: string,
                          parse: Parser<Context>)
    requires AllFinish(es, parse)
    requires AlwaysFinishes(ContextOf(es, parse), d1) && Taken(ContextOf(es, parse), d1, parse) == None
    requires AlwaysFinishes(parse(ContextOf(es, parse), d1), d2)
    requires Taken(parse(ContextOf(es, parse), d1), d2, parse) == Some(q)
    ensures var two := es + TwoExchanges(ContextOf(es, parse), d1, d2, parse);
            && AllFinish(two, parse) && ContextOf(two, parse) == parse(parse(ContextOf(es, parse), d1), d2)
            && Queries(two, parse) == Queries(es, parse) + [q]
  {
    hide AlwaysFinishes, Taken, ContextOf, AllFinish, Queries;
    var h1 := ExchangeQueries(es, d1, parse);
    var one := es + [Received(CLIENT, d1), Sent(CLIENT, h1)];
    var h2 := ExchangeQueries(one, d2, parse);
    assert one + [Received(CLIENT, d2), Sent(CLIENT, h2)] == es + TwoExchanges(ContextOf(es, parse), d1, d2, parse);
    assert Queries(es, parse) + [] == Queries(es, parse);
  }

  lemma QueryIsKept(h: Context, q: string, parse: Parser<Context>)
    requires Follows(parse) && Query(q)
    ensures var d1 := Bare("G", Asks("/", q), "");
            AlwaysFinishes(h, d1) && Taken(h, d1, parse) == None && parse(h, d1).qs == q
  {
    hide Follows, AlwaysFinishes, Taken, Query, IsRequest, Bare, Asks, Split, FillTable, Parsable, IsLoginPage;
    FixedWords();
    QueryIsBrought(q);
    TargetParsed(parse, h, Bare("G", Asks("/", q), ""), Asks("/", q));
  }

  lemma KeptIsTaken(h: Context, q: string, parse: Parser<Context>)
    requires Follows(parse) && Query(q) && h.qs == q
    ensures var d2 := Bare("G", "/prelogin.html", "");
            AlwaysFinishes(h, d2) && Taken(h, d2, parse) == Some(q)
  {
    hide Follows, AlwaysFinishes, Taken, Query, IsRequest, Bare, Asks, Split, FillTable, Parsable, IsLoginPage;
    FixedWords();
    LoginPageAlone();
    QueryIsBrought(q);
    QueryParsable(q);
    TargetParsed(parse, h, Bare("G", "/prelogin.html", ""), "/prelogin.html");
  }

  /** The two requests for one query. */
  lemma DeliveredQuery(es: seq<Event<Context>>, q: string, parse: Parser<Context>)
    requires Follows(parse) && Query(q) && AllFinish(es, parse)
    ensures var d1, d2, h := Bare("G", Asks("/", q), ""), Bare("G", "/prelogin.html", ""), ContextOf(es, parse);
            var two := es + TwoExchanges(h, d1, d2, parse);
            && AllFinish(two, parse) && ContextOf(two, parse) == parse(parse(h, d1), d2)
            && Queries(two, parse) == Queries(es, parse) + [q]
  {
    hide Follows, AlwaysFinishes, Taken, ContextOf, AllFinish, Queries, Query, Bare, Asks, TwoExchanges;
    var d1, d2, h := Bare("G", Asks("/", q), ""), Bare("G", "/prelogin.html", ""), ContextOf(es, parse);
    QueryIsKept(h, q, parse);
    KeptIsTaken(parse(h, d1), q, parse);
    TwoExchangesQuery(es, d1, d2, q, parse);
  }

  lemma NoTalk(h: Context, parse: Parser<Context>)
    ensures Talk(h, [], parse) == []
  {
  }

  lemma Regroup<T>(a: seq<T>, b: seq<T>, c: seq<T>)
    ensures (a + b) + c == a + (b + c)
  {
  }

  lemma {:induction false} DeliveredQueries(es: seq<Event<Context>>, h: seq<string>, parse: Parser<Context>)
    requires Follows(parse) && History(h) && AllFinish(es, parse)
    ensures var all := es + Talk(ContextOf(es, parse), Deliver(h), parse);
            AllFinish(all, parse) && Queries(all, parse) == Queries(es, parse) + h
    decreases |h|
  {
    hide Follows, ContextOf, AllFinish, Queries, Query, Bare, Asks, Talk, TwoExchanges;
    if h == [] {
      NoTalk(ContextOf(es, parse), parse);
      assert es + [] == es && Queries(es, parse) + [] == Queries(es, parse);
    } else {
      var q, h0 := h[0], ContextOf(es, parse);
      var d1, d2 := Bare("G", Asks("/", q), ""), Bare("G", "/prelogin.html", "");
      DeliveredQuery(es, q, parse);
      var two := es + TwoExchanges(h0, d1, d2, parse);
      DeliveredQueries(two, h[1..], parse);
      TalkOfTwo(h0, d1, d2, Deliver(h[1..]), parse);
      Regroup(es, TwoExchanges(h0, d1, d2, parse), Talk(ContextOf(two, parse), Deliver(h[1..]), parse));
      Regroup(Queries(es, parse), [q], h[1..]);
      assert h == [q] + h[1..];
    }
  }

  lemma NothingToFinish(parse: Parser<Context>)
    ensures AllFinish([], parse)
  {
  }

  /** Every history of queries is the one of some descriptor in some run. */
  lemma HistoryIsSeen(h: seq<string>, parse: Parser<Context>)
    requires Follows(parse) && History(h)
    ensures var es := Dialogue(Deliver(h), parse);
            Seen(es, parse) && AllFinish(es, parse) && Queries(es, parse) == h
  {
    hide Follows, Seen, Deliver, Talk, AlwaysFinishes, Taken, History, BlankContext, AllFinish, Queries, ContextOf;
    var none: seq<Event<Context>> := [];
    var connected := none + [New(LISTENER, CLIENT)];
    DeliverNotEmpty(h);
    DialogueIsSeen(Deliver(h), parse);
    NothingTaken(parse);
    NothingToFinish(parse);
    QueriesMore(none, New(LISTENER, CLIENT), parse);
    OneMoreEvent(none, New(LISTENER, CLIENT), parse);
    DeliveredQueries(connected, h, parse);
    assert Queries(connected, parse) + h == h;
    assert connected == [New(LISTENER, CLIENT)];
  }

  // ------------------------------------------------------------------ stale answers in runs

  ghost predicate Possible(es: seq<Event<Context>>, parse: Parser<Context>) {
    Seen(es, parse) && AllFinish(es, parse)
  }

  /** Whatever a descriptor has seen, a lookup of k after the login request returns the same if it finds k. */
  ghost predicate SettledInRuns(u: string, pairs: seq<Param>, k: string, parse: Parser<Context>)
    requires |pairs| < TABLE_SIZE
  {
    forall es, es' :: Possible(es, parse) && Possible(es', parse) ==>
      var t, t' := After(ContextOf(es, parse).table, u, pairs), After(ContextOf(es', parse).table, u, pairs);
      HasName(t, k) && HasName(t', k) ==> Lookup(t, k) == Lookup(t', k)
  }

  /** Exactly if the request carried k or no earlier request can leave it with a value behind its parameters. */
  lemma SettledInRunsIffSent(u: string, pairs: seq<Param>, k: string, parse: Parser<Context>)
    requires Follows(parse) && Admissible(u, pairs)
    ensures |pairs| < TABLE_SIZE
    ensures SettledInRuns(u, pairs, k, parse) <==> k == LOGIN || IsKey(pairs, k) || !Reaches(|pairs|, k)
  {
    hide Follows, Admissible, Seen, AllFinish, Queries, ContextOf, After, HasName, Lookup, TableAfter, History,
      Reaches, IsKey, Sane, Deliver, Dialogue;
    SettledIffSent(u, pairs, k);
    if Settled(u, pairs, k) {
      forall es, es' | Possible(es, parse) && Possible(es', parse)
        ensures var t, t' := After(ContextOf(es, parse).table, u, pairs), After(ContextOf(es', parse).table, u, pairs);
                HasName(t, k) && HasName(t', k) ==> Lookup(t, k) == Lookup(t', k)
      {
        TableOfQueries(es, parse);
        TableOfQueries(es', parse);
      }
    } else if SettledInRuns(u, pairs, k, parse) {
      forall h, h' | History(h) && History(h')
        ensures var t, t' := After(TableAfter(h), u, pairs), After(TableAfter(h'), u, pairs);
                HasName(t, k) && HasName(t', k) ==> Lookup(t, k) == Lookup(t', k)
      {
        HistoryIsSeen(h, parse);
        HistoryIsSeen(h', parse);
        TableOfQueries(Dialogue(Deliver(h), parse), parse);
        TableOfQueries(Dialogue(Deliver(h'), parse), parse);
        assert Possible(Dialogue(Deliver(h), parse), parse) && Possible(Dialogue(Deliver(h'), parse), parse);
      }
    }
  }
}
