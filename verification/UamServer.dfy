/**
 * The whole server: the event loop with request contexts as its contexts and the request
 * parser as its parser.  A login that arrives on some connection of some run is answered
 * with the password that was typed on it, hidden under the RFC 1321 digest, unless an
 * earlier request on the same descriptor stands in its way.
 */
module UamServer {
  import opened UrlDecode
  import opened Wrappers
  import opened Scan
  import opened QueryString
  import opened LoginRequest
  import opened RequestHistory
  import opened LoginForm
  import opened FormHistory
  import opened TcpModel
  import TcpCreate
  import TcpMain
  import TcpSession
  import Words

  type Context = HttpState

  /** The size of the buffer that requests are received into. */
  const DATA_SIZE := 2448

  /** A zeroed request context. */
  function BlankContext(): Context {
    HttpState("", "", "", "", 0, Blank())
  }

  // -------------------------------------------------------------------- received data

  /** The C string at the start of a buffer: the characters before the first NUL. */
  function CString(data: seq<Words.Byte>): string {
    if data == [] || data[0] == 0 then "" else [Words.ByteNum(data[0]) as char] + CString(data[1..])
  }

  lemma NotNul(c: char)
    requires 0 < c as int < 0x100
    ensures Words.ByteOf(c as int) != 0
  {
    hide Words.ByteOf;
    var b := Words.ByteOf(c as int);
  }

  lemma {:induction false} CStringOfOctets(s: string)
    requires Wire(s)
    ensures Narrow(s) && CString(Octets(s)) == s
  {
    hide Words.ByteNum, Words.ByteOf;
    if s != "" {
      CStringOfOctets(s[1..]);
      assert Octets(s)[1..] == Octets(s[1..]);
      NotNul(s[0]);
      assert s == [s[0]] + s[1..];
    }
  }

  lemma NulIsZero(b: Words.Byte)
    requires b != 0
    ensures Words.ByteNum(b) != 0
  {
    Words.ByteNumInjective(b, 0);
  }

  lemma {:induction false} CStringIsWire(data: seq<Words.Byte>)
    ensures Wire(CString(data))
  {
    hide Words.ByteNum;
    if data != [] && data[0] != 0 {
      NulIsZero(data[0]);
      CStringIsWire(data[1..]);
    }
  }

  // ---------------------------------------------------------------------- the parser

  /** The source comes to an end on the request inside its buffers, whatever is in the uninitialised one. */
  ghost predicate AlwaysFinishes(h: Context, data: seq<Words.Byte>) {
    |data| < DATA_SIZE && forall tmp | InBuffer(tmp) :: Finishes(h, CString(data), tmp)
  }

  /** What the parser makes of the context is what the source may make of it. */
  ghost predicate MayLeave(h: Context, data: seq<Words.Byte>, r: Context) {
    exists tmp :: Finishes(h, CString(data), tmp) && r == Processed(h, CString(data), tmp)
  }

  /** The parser does what the source does wherever the source comes to an end; elsewhere it is not known. */
  ghost predicate Follows(parse: Parser<Context>) {
    forall h, data :: AlwaysFinishes(h, data) ==> MayLeave(h, data, parse(h, data))
  }

  /** A parser that leaves the context alone where the source does not come to an end. */
  ghost function CautiousParser(): Parser<Context> {
    (h: Context, data: seq<Words.Byte>) =>
      if Finishes(h, CString(data), "") then Processed(h, CString(data), "") else h
  }

  lemma CautiousFollows()
    ensures Follows(CautiousParser())
  {
    hide Finishes, Processed, CString;
    var parse := CautiousParser();
    assert InBuffer("");
    forall h, data | AlwaysFinishes(h, data) ensures MayLeave(h, data, parse(h, data)) {
      assert Finishes(h, CString(data), "") && parse(h, data) == Processed(h, CString(data), "");
    }
  }

  // ------------------------------------------------------ which query a request has parsed

  /** The query string a request has parsed, if the page it ends up with is a login page. */
  ghost function Taken(h: Context, data: seq<Words.Byte>, parse: Parser<Context>): Option<string> {
    var uri := FirstLine(CString(data)).GetOr(h.uri);
    if IsLoginPage(parse(h, data).resource) then Some(QueryOf(Split(Target(uri, h.resource), '?'), h.qs)) else None
  }

  /** What the texts of a context are like from the zeroed one on. */
  predicate Sane(h: Context) {
    && (h.qs == "" || (Solid(h.qs) && Wire(h.qs) && |h.qs| <= QUERY_MAX))
    && |h.resource| < FIELD_SIZE && Wire(h.resource) && Wire(h.uri)
  }

  lemma LineIsWire(request: string, previous: string)
    requires Wire(request) && Wire(previous)
    ensures Wire(FirstLine(request).GetOr(previous))
  {
    hide FirstLine;
    if FirstLine(request).Some? {
      var i, j := LineIsPiece(request);
    }
  }

  lemma TargetIsWire(uri: string, previous: string)
    requires Wire(uri) && Wire(previous)
    ensures Wire(Target(uri, previous))
  {
    hide Word, AfterWord;
    if Word(uri).Some? && Word(AfterWord(uri)).Some? {
      var i, j := WordIsPiece(uri);
      var k, l := WordIsPiece(AfterWord(uri));
    }
  }

  lemma TargetLength(uri: string, previous: string)
    requires |uri| < URI_SIZE && |previous| < FIELD_SIZE
    ensures |Target(uri, previous)| + 3 <= URI_SIZE
  {
    hide Word, AfterWord;
    if Word(uri).Some? && Word(AfterWord(uri)).Some? {
      SecondWordLength(uri);
    }
  }

  /** What the scan of the request line finds for a query is solid and fits. */
  lemma SecondIsQuery(target: string)
    requires Wire(target) && |target| + 3 <= URI_SIZE && Split(target, '?').second.Some?
    ensures var q := Split(target, '?').second.value; Solid(q) && Wire(q) && |q| <= QUERY_MAX
  {
    hide Word;
    var i, j := SecondIsPiece(target, '?');
    FieldsFit(target, '?');
  }

  lemma EmptyNotParsable()
    ensures !Parsable("")
  {
    NothingDecoded();
  }

  lemma DecodedSane(q: string)
    requires Solid(q) && Wire(q) && |q| <= QUERY_MAX && Decodable(q)
    ensures var d := Decode(q); Solid(d) && Wire(d) && |d| <= QUERY_MAX
  {
    hide Decode, Decodable, HasSpace;
    SpaceStays(q);
    DecodedNotEmpty(q);
    DecodedWire(q);
    DecodedLength(q);
  }

  lemma PrefixWire(a: string, s: string)
    requires a <= s && Wire(s)
    ensures Wire(a)
  {
  }

  lemma ScannedSane(h: Context, request: string, tmp: string)
    requires Sane(h) && Wire(request) && Finishes(h, request, tmp)
    ensures Sane(Scanned(h, request, tmp))
  {
    hide FirstLine, Word, AfterWord, Target, HeadersFit, Solid, Wire, IsLoginPage, Parsable;
    var uri := FirstLine(request).GetOr(h.uri);
    LineIsWire(request, h.uri);
    TargetIsWire(uri, h.resource);
    TargetLength(uri, h.resource);
    var f := Split(Target(uri, h.resource), '?');
    if f.second.Some? {
      SecondIsQuery(Target(uri, h.resource));
    }
    if f.first.Some? {
      PrefixWire(f.first.value, Target(uri, h.resource));
    }
  }

  /** A request leaves the table alone or parses one query into it. */
  lemma ProcessedSane(h: Context, request: string, tmp: string)
    requires Sane(h) && Wire(request) && Finishes(h, request, tmp)
    ensures var t, r := Scanned(h, request, tmp), Processed(h, request, tmp);
            && Sane(r) && r.resource == t.resource
            && (IsLoginPage(t.resource) ==> Query(t.qs) && r.table == FillTable(h.table, Decode(t.qs)))
            && (!IsLoginPage(t.resource) ==> r.table == h.table)
  {
    hide FirstLine, Word, Target, LineFits, HeadersFit, Solid, Wire, IsLoginPage, Decode, Decodable, FillTable, Split;
    ScannedSane(h, request, tmp);
    var t := Scanned(h, request, tmp);
    if IsLoginPage(t.resource) {
      EmptyNotParsable();
      DecodedSane(t.qs);
    }
  }

  lemma StepOfHistory(parse: Parser<Context>, h: Context, data: seq<Words.Byte>)
    requires Follows(parse) && Sane(h) && AlwaysFinishes(h, data)
    ensures Sane(parse(h, data))
    ensures match Taken(h, data, parse)
            case Some(q) => Query(q) && parse(h, data).table == FillTable(h.table, Decode(q))
            case None => parse(h, data).table == h.table
  {
    hide Finishes, Processed, CString, Sane, Query, FillTable, Decode, IsLoginPage;
    var tmp :| Finishes(h, CString(data), tmp) && parse(h, data) == Processed(h, CString(data), tmp);
    CStringIsWire(data);
    ProcessedSane(h, CString(data), tmp);
  }

  // --------------------------------------------------- what came before on a descriptor

  /** The context that the callbacks so far have left on a descriptor. */
  ghost function ContextOf(es: seq<Event<Context>>, parse: Parser<Context>): Context {
    TcpSession.ContextAfter(BlankContext(), es, parse)
  }

  lemma OneMoreEvent(es: seq<Event<Context>>, e: Event<Context>, parse: Parser<Context>)
    ensures ContextOf(es + [e], parse)
            == if e.Received? then parse(ContextOf(es, parse), e.data) else ContextOf(es, parse)
  {
    assert (es + [e])[..|es|] == es;
  }

  /** The source comes to an end on each request, in the context it finds. */
  ghost predicate AllFinish(es: seq<Event<Context>>, parse: Parser<Context>) {
    es == [] ||
    (var init, e := es[..|es| - 1], es[|es| - 1];
     AllFinish(init, parse) && (e.Received? ==> AlwaysFinishes(ContextOf(init, parse), e.data)))
  }

  /** The queries parsed on the descriptor, in order, whoever sent them. */
  ghost function Queries(es: seq<Event<Context>>, parse: Parser<Context>): seq<string> {
    if es == [] then []
    else
      var init, e := es[..|es| - 1], es[|es| - 1];
      var q := if e.Received? then Taken(ContextOf(init, parse), e.data, parse) else None;
      Queries(init, parse) + (if q.Some? then [q.value] else [])
  }

  lemma BlankIsSane()
    ensures Sane(BlankContext())
  {
  }

  lemma NothingTaken(parse: Parser<Context>)
    ensures Queries([], parse) == [] && History([]) && ContextOf([], parse) == BlankContext()
    ensures ContextOf([], parse).table == TableAfter([])
  {
  }

  /** The table of a descriptor is the one its queries leave, from the zeroed table and across connections. */
  lemma {:induction false} TableOfQueries(es: seq<Event<Context>>, parse: Parser<Context>)
    requires Follows(parse) && AllFinish(es, parse)
    ensures Sane(ContextOf(es, parse)) && History(Queries(es, parse))
    ensures ContextOf(es, parse).table == TableAfter(Queries(es, parse))
    decreases |es|
  {
    hide Follows, AlwaysFinishes, Sane, Query, Taken, TableAfter, FillTable, History, ContextOf;
    if es == [] {
      BlankIsSane();
      NothingTaken(parse);
    } else {
      var init, e := es[..|es| - 1], es[|es| - 1];
      TableOfQueries(init, parse);
      assert es == init + [e];
      OneMoreEvent(init, e, parse);
      if e.Received? {
        var h := ContextOf(init, parse);
        StepOfHistory(parse, h, e.data);
        if Taken(h, e.data, parse).Some? {
          OneMoreQuery(Queries(init, parse), Taken(h, e.data, parse).value);
        } else {
          assert Queries(init, parse) + [] == Queries(init, parse);
        }
      } else {
        assert Queries(init, parse) + [] == Queries(init, parse);
      }
    }
  }

  // ---------------------------------------------------------------- requests as bytes

  /** The data is a request for the target. */
  ghost predicate IsRequest(data: seq<Words.Byte>, target: string) {
    |data| < DATA_SIZE &&
    exists verb, proto, headers ::
      GoodRequest(verb, target, proto, headers) && CString(data) == RequestText(verb, target, proto, headers)
  }

  /** The data is a request for the page with a query that decodes to the text, however it was escaped. */
  ghost predicate Sends(data: seq<Words.Byte>, page: string, query: string, text: string) {
    && Solid(page) && Free(page, '?') && Solid(query) && IsRequest(data, Asks(page, query))
    && Decodable(query) && Decode(query) == text
  }

  /** The data is a request that carries a complete form for a login page. */
  ghost predicate IsForm(data: seq<Words.Byte>, page: string, pairs: seq<Param>) {
    && IsLoginPage(page) && GoodForm(pairs) && Uncut(FormText(pairs))
    && exists query :: Sends(data, page, query, FormText(pairs))
  }

  /** The data is a request that carries a login address and its parameters. */
  ghost predicate IsLogin(data: seq<Words.Byte>, page: string, u: string, pairs: seq<Param>) {
    IsLoginPage(page) && Admissible(u, pairs) && exists query :: Sends(data, page, query, Serialise(u, pairs))
  }

  /** The data is a request that carries a form which is cut behind its first key. */
  ghost predicate IsCutForm(data: seq<Words.Byte>, page: string, cut: seq<Param>) {
    && IsLoginPage(page) && GoodForm(cut) && |cut[0].name| + 1 < Until(FormText(cut), '?') < |FormText(cut)| - 1
    && exists query :: Sends(data, page, query, FormText(cut)) && Parsable(query)
  }

  /** The data is a request for another page, with or without a query. */
  ghost predicate IsOther(data: seq<Words.Byte>) {
    exists target ::
      IsRequest(data, target) && Split(target, '?').first.Some? && !IsLoginPage(Split(target, '?').first.value)
  }

  lemma GoodHeaders(verb: string, target: string, proto: string, headers: string)
    requires GoodRequest(verb, target, proto, headers)
    ensures HeadersFit(RequestText(verb, target, proto, headers))
  {
  }

  lemma RequestScanned(h: Context, data: seq<Words.Byte>, target: string, tmp: string)
    requires IsRequest(data, target) && Split(target, '?').first.Some?
    ensures var t, f := Scanned(h, CString(data), tmp), Split(target, '?');
            && t.resource == f.first.value && t.qs == QueryOf(f, h.qs) && t.table == h.table
    ensures LineFits(FirstLine(CString(data)).GetOr(h.uri), h.resource) && HeadersFit(CString(data))
    ensures Target(FirstLine(CString(data)).GetOr(h.uri), h.resource) == target
  {
    hide GoodRequest, RequestText, CString, Scanned, Split, LineFits, HeadersFit, Target;
    var verb, proto, headers :|
      GoodRequest(verb, target, proto, headers) && CString(data) == RequestText(verb, target, proto, headers);
    TargetScanned(h, verb, target, proto, headers, tmp);
    RequestSplits(verb, target, proto, headers, h.resource);
    GoodHeaders(verb, target, proto, headers);
  }

  lemma NotBlank(s: string)
    requires Solid(s)
    ensures s != ""
  {
  }

  lemma QueryInText(verb: string, page: string, query: string, proto: string, headers: string)
    requires Wire(RequestText(verb, Asks(page, query), proto, headers))
    ensures Wire(query)
  {
    var s := RequestText(verb, Asks(page, query), proto, headers);
    var n := |verb| + 1 + |page| + 1;
    assert s[n..n + |query|] == query;
  }

  lemma IsRequestLength(data: seq<Words.Byte>, page: string, query: string)
    requires IsRequest(data, Asks(page, query)) && page != ""
    ensures |query| <= QUERY_MAX && Wire(query)
  {
    hide HeadersFit, CString, Solid;
    var verb, proto, headers :|
      GoodRequest(verb, Asks(page, query), proto, headers)
      && CString(data) == RequestText(verb, Asks(page, query), proto, headers);
    CStringIsWire(data);
    NotBlank(verb);
    QueryInText(verb, page, query, proto, headers);
  }

  lemma ParsableCount(query: string)
    requires Parsable(query)
    ensures Decodable(query) && |Tokenise(ParamPart(Decode(query)), '&')| < TABLE_SIZE
  {
  }

  lemma RequestIsShort(data: seq<Words.Byte>, target: string)
    requires IsRequest(data, target)
    ensures |data| < DATA_SIZE
  {
  }

  /** What a request for a target makes of the context: on a login page it parses its query, or the one from before. */
  lemma TargetParsed(parse: Parser<Context>, h: Context, data: seq<Words.Byte>, target: string)
    requires Follows(parse) && IsRequest(data, target) && Split(target, '?').first.Some?
    requires IsLoginPage(Split(target, '?').first.value) ==> Parsable(QueryOf(Split(target, '?'), h.qs))
    ensures AlwaysFinishes(h, data)
    ensures var page, q, r := Split(target, '?').first.value, QueryOf(Split(target, '?'), h.qs), parse(h, data);
            && r.resource == page && Taken(h, data, parse) == (if IsLoginPage(page) then Some(q) else None)
            && (IsLoginPage(page) ==> Parsable(q) && r.table == FillTable(h.table, Decode(q)))
            && (!IsLoginPage(page) ==> r.table == h.table && r.qs == q)
  {
    hide CString, Scanned, Split, LineFits, HeadersFit, Target, IsLoginPage, Parsable, InBuffer, IsRequest;
    forall tmp | InBuffer(tmp) ensures Finishes(h, CString(data), tmp) {
      RequestScanned(h, data, target, tmp);
    }
    RequestIsShort(data, target);
    assert AlwaysFinishes(h, data);
    var tmp :| Finishes(h, CString(data), tmp) && parse(h, data) == Processed(h, CString(data), tmp);
    RequestScanned(h, data, target, tmp);
    if IsLoginPage(Split(target, '?').first.value) {
      ParsableCount(QueryOf(Split(target, '?'), h.qs));
    }
  }

  /** A request for a login page whose query can be parsed takes that query and fills the table with it. */
  lemma QueryParsed(parse: Parser<Context>, h: Context, data: seq<Words.Byte>, page: string, query: string)
    requires Follows(parse) && IsLoginPage(page) && IsRequest(data, Asks(page, query)) && Solid(query)
    requires Parsable(query)
    ensures AlwaysFinishes(h, data) && Taken(h, data, parse) == Some(query)
    ensures parse(h, data).resource == page && parse(h, data).table == FillTable(h.table, Decode(query))
  {
    hide Follows, AlwaysFinishes, Taken, Asks, Split, IsLoginPage, Solid, Free, Parsable, IsRequest;
    PageIsSolid(page);
    AsksSplits(page, query);
    TargetParsed(parse, h, data, Asks(page, query));
  }

  /** A request for another page takes no query and leaves the table alone. */
  lemma OtherParsed(parse: Parser<Context>, h: Context, data: seq<Words.Byte>)
    requires Follows(parse) && IsOther(data)
    ensures AlwaysFinishes(h, data) && Taken(h, data, parse) == None && parse(h, data).table == h.table
  {
    hide Follows, AlwaysFinishes, Taken, Split, IsLoginPage, IsRequest;
    var target :|
      IsRequest(data, target) && Split(target, '?').first.Some? && !IsLoginPage(Split(target, '?').first.value);
    TargetParsed(parse, h, data, target);
  }

  lemma FormParsed(parse: Parser<Context>, h: Context, data: seq<Words.Byte>, page: string, pairs: seq<Param>)
    requires Follows(parse) && IsForm(data, page, pairs)
    ensures |pairs| < TABLE_SIZE && AlwaysFinishes(h, data)
    ensures parse(h, data).resource == page && parse(h, data).table == AfterForm(h.table, pairs)
    ensures Taken(h, data, parse).Some? && WellMeant(Taken(h, data, parse).value)
  {
    hide Follows, IsLoginPage, GoodForm, Uncut, FormText, Solid, Free, AfterForm, IsRequest, Decode, Decodable,
      Parsable, FillTable, AlwaysFinishes, Taken, Asks, Wire, Admissible, Serialise;
    FormCount(pairs);
    var query :| Sends(data, page, query, FormText(pairs));
    NotBlank(page);
    IsRequestLength(data, page, query);
    FormParsable(query, pairs);
    QueryParsed(parse, h, data, page, query);
    FormFilled(h.table, pairs);
  }

  lemma LoginParsed(parse: Parser<Context>, h: Context, data: seq<Words.Byte>, page: string, u: string,
                    pairs: seq<Param>)
    requires Follows(parse) && IsLogin(data, page, u, pairs)
    ensures |pairs| < TABLE_SIZE && AlwaysFinishes(h, data)
    ensures parse(h, data).resource == page && parse(h, data).table == After(h.table, u, pairs)
    ensures Taken(h, data, parse).Some? && WellMeant(Taken(h, data, parse).value)
  {
    hide Follows, IsLoginPage, Admissible, Serialise, Solid, Free, After, IsRequest, Decode, Decodable, Parsable,
      FillTable, AlwaysFinishes, Taken, Asks, Wire, GoodForm, FormText, Uncut;
    FewerThanSlots(u, pairs);
    var query :| Sends(data, page, query, Serialise(u, pairs));
    NotBlank(page);
    IsRequestLength(data, page, query);
    SerialisedParsable(query, u, pairs);
    QueryParsed(parse, h, data, page, query);
    TableFilled(h.table, u, pairs);
  }

  lemma CutFormParsed(parse: Parser<Context>, h: Context, data: seq<Words.Byte>, page: string, cut: seq<Param>)
    requires Follows(parse) && IsCutForm(data, page, cut)
    ensures AlwaysFinishes(h, data) && !Uncut(FormText(cut))
    ensures parse(h, data).table[0] == Param(cut[0].name, FormText(cut)[|cut[0].name| + 1..Until(FormText(cut), '?')])
  {
    hide Follows, IsLoginPage, GoodForm, Uncut, FormText, Solid, Free, IsRequest, Decode, Decodable, Parsable,
      FillTable, AlwaysFinishes, Taken, Asks, ParamsFit, Until;
    var query :| Sends(data, page, query, FormText(cut)) && Parsable(query);
    QueryParsed(parse, h, data, page, query);
    ParsableFits(query);
    ParsableCount(query);
    CutFormInSlot0(h.table, cut);
  }

  // -------------------------------------------------------------- well-meant requests

  /** A complete form, a login request, or a request for another page. */
  ghost predicate Sensible(data: seq<Words.Byte>) {
    || (exists page, pairs :: IsForm(data, page, pairs))
    || (exists page, u, pairs :: IsLogin(data, page, u, pairs))
    || IsOther(data)
  }

  ghost predicate AllSensible(es: seq<Event<Context>>) {
    forall i :: 0 <= i < |es| && es[i].Received? ==> Sensible(es[i].data)
  }

  lemma SensibleTakes(parse: Parser<Context>, h: Context, data: seq<Words.Byte>)
    requires Follows(parse) && Sensible(data)
    ensures AlwaysFinishes(h, data)
    ensures Taken(h, data, parse).Some? ==> WellMeant(Taken(h, data, parse).value)
  {
    hide Follows, IsForm, IsLogin, IsOther, AlwaysFinishes, Taken, WellMeant;
    if page, pairs :| IsForm(data, page, pairs) {
      FormParsed(parse, h, data, page, pairs);
    } else if page, u, pairs :| IsLogin(data, page, u, pairs) {
      LoginParsed(parse, h, data, page, u, pairs);
    } else {
      OtherParsed(parse, h, data);
    }
  }

  /** Sensible requests finish, and the queries they have parsed are well-meant. */
  lemma {:induction false} SensibleHistory(es: seq<Event<Context>>, parse: Parser<Context>)
    requires Follows(parse) && AllSensible(es)
    ensures AllFinish(es, parse)
    ensures forall i :: 0 <= i < |Queries(es, parse)| ==> WellMeant(Queries(es, parse)[i])
    decreases |es|
  {
    hide Follows, Sensible, AlwaysFinishes, Taken, WellMeant, ContextOf;
    if es != [] {
      var init, e := es[..|es| - 1], es[|es| - 1];
      SensibleHistory(init, parse);
      if e.Received? {
        assert Sensible(es[|es| - 1].data);
        SensibleTakes(parse, ContextOf(init, parse), e.data);
      }
    }
  }

  /** After sensible requests only, slot 0 stands in the way of no key but loginurl. */
  lemma SensibleLeavesSlot0(es: seq<Event<Context>>, parse: Parser<Context>)
    requires Follows(parse) && AllSensible(es)
    ensures ContextOf(es, parse).table[0].name == "" || ContextOf(es, parse).table[0].name == LOGIN
  {
    hide Follows, AllSensible, AllFinish, Queries, WellMeant, ContextOf, Sane;
    SensibleHistory(es, parse);
    TableOfQueries(es, parse);
    WellMeantHistory(Queries(es, parse));
  }

  // -------------------------------------------------------------------------- runs

  ghost predicate StartsRun(n: nat, bindOk: bool, rounds: seq<Round>, parse: Parser<Context>) {
    3 <= n < TCP_MAX_CTX && RunFits(TcpCreate.InstanceCreated(TcpMain.Start(BlankContext()), n, bindOk), rounds, parse)
  }

  /** The callbacks on descriptor j in a run from start-up. */
  ghost function EventsOfRun(n: nat, bindOk: bool, rounds: seq<Round>, parse: Parser<Context>,
                             j: nat): seq<Event<Context>>
    requires StartsRun(n, bindOk, rounds, parse)
  {
    TcpSession.EventsOn(Run(TcpCreate.InstanceCreated(TcpMain.Start(BlankContext()), n, bindOk), rounds, parse).log, j)
  }

  /** The callbacks are those on some descriptor in some run, among whatever happens on the others. */
  ghost predicate Seen(es: seq<Event<Context>>, parse: Parser<Context>) {
    exists n: nat, bindOk, rounds, j: nat ::
      StartsRun(n, bindOk, rounds, parse) && j < TCP_MAX_CTX && es == EventsOfRun(n, bindOk, rounds, parse, j)
  }

  lemma SeenInOrder(es: seq<Event<Context>>, parse: Parser<Context>)
    requires Seen(es, parse)
    ensures TcpSession.InOrder(BlankContext(), es, parse)
  {
    hide TcpSession.InOrder, RunFits, Run, TcpCreate.InstanceCreated, TcpSession.EventsOn, TcpSession.ContextAfter;
    var n: nat, bindOk, rounds, j: nat :|
      StartsRun(n, bindOk, rounds, parse) && j < TCP_MAX_CTX && es == EventsOfRun(n, bindOk, rounds, parse, j);
    TcpMain.ServerRuns(BlankContext(), n, bindOk, rounds, parse);
  }

  lemma AnsweredContext(es: seq<Event<Context>>, parse: Parser<Context>, i: nat)
    requires TcpSession.InOrder(BlankContext(), es, parse) && i < |es| && es[i].Sent?
    ensures i > 0 && es[i - 1].Received?
    ensures es[i].http == parse(ContextOf(es[..i - 1], parse), es[i - 1].data)
  {
    assert TcpSession.MayFollow(TcpSession.Last(es[..i]), es[i]);
    assert es[..i][..i - 1] == es[..i - 1] && es[..i][i - 1] == es[i - 1];
  }

  /** The response at position i answers a complete form. */
  ghost predicate AnswersForm(es: seq<Event<Context>>, i: nat, page: string, pairs: seq<Param>) {
    0 < i < |es| && es[i].Sent? && es[i - 1].Received? && IsForm(es[i - 1].data, page, pairs)
  }

  /**
   * In every run, on every descriptor, the response to a complete form is made from a context that holds the
   * form's parameters over what the requests before it left, and a key finds its own value exactly unless slot 0
   * holds that key with another value.
   */
  lemma FormReachesResponse(es: seq<Event<Context>>, parse: Parser<Context>, i: nat, page: string, pairs: seq<Param>)
    requires Seen(es, parse) && Follows(parse) && AnswersForm(es, i, page, pairs)
    ensures |pairs| < TABLE_SIZE && es[i].http.resource == page
    ensures es[i].http.table == AfterForm(ContextOf(es[..i - 1], parse).table, pairs)
    ensures forall k :: 0 <= k < |pairs| ==>
              && HasName(es[i].http.table, pairs[k].name)
              && (Lookup(es[i].http.table, pairs[k].name) == pairs[k].value
                  <==> Shows(ContextOf(es[..i - 1], parse).table[0], pairs[k].name, pairs[k].value))
  {
    hide Seen, Follows, GoodForm, Uncut, FormText, Sends, TcpSession.InOrder, AfterForm, ContextOf, HasName, Lookup,
      AlwaysFinishes, Taken, WellMeant;
    SeenInOrder(es, parse);
    AnsweredContext(es, parse, i);
    FormParsed(parse, ContextOf(es[..i - 1], parse), es[i - 1].data, page, pairs);
    forall k: nat | k < |pairs|
      ensures HasName(es[i].http.table, pairs[k].name)
      ensures Lookup(es[i].http.table, pairs[k].name) == pairs[k].value
              <==> Shows(ContextOf(es[..i - 1], parse).table[0], pairs[k].name, pairs[k].value)
    {
      FormLookup(ContextOf(es[..i - 1], parse).table, pairs, k);
    }
  }

  /**
   * The whole login in the whole server.  On whatever descriptor, among whatever others, after whatever requests:
   * the lookups of the response to a login form return what was sent exactly when slot 0 does not stand in their
   * way, and then the hidden password gives back the one that was typed, to whoever has the digest of the
   * challenge that was sent and the secret.
   */
  lemma LoginIsAnswered(es: seq<Event<Context>>, parse: Parser<Context>, i: nat, pairs: seq<Param>,
                        secret: seq<Words.Byte>, login: Login)
    requires Seen(es, parse) && Follows(parse) && AnswersForm(es, i, "/login_response.html", pairs)
    requires CarriesLogin(pairs, login)
    ensures FindsLogin(es[i].http.table, login) <==> ShowsLogin(ContextOf(es[..i - 1], parse).table[0], login)
    ensures ShowsLogin(ContextOf(es[..i - 1], parse).table[0], login) ==> HidesLogin(es[i].http.table, secret, login)
  {
    hide Seen, Follows, IsForm, AfterForm, ContextOf, CarriesLogin, FindsLogin, ShowsLogin, HidesLogin, HasName,
      Lookup, Shows;
    FormReachesResponse(es, parse, i, "/login_response.html", pairs);
    FormAnswered(ContextOf(es[..i - 1], parse).table, pairs, secret, login);
  }

  lemma ClearShows(slot0: Param, login: Login)
    requires slot0.name == "" || slot0.name == LOGIN
    ensures ShowsLogin(slot0, login)
  {
  }

  /** So it is whenever all requests before it on the descriptor, by whichever client, were sensible. */
  lemma SensibleLoginIsAnswered(es: seq<Event<Context>>, parse: Parser<Context>, i: nat, pairs: seq<Param>,
                                secret: seq<Words.Byte>, login: Login)
    requires Seen(es, parse) && Follows(parse) && AnswersForm(es, i, "/login_response.html", pairs)
    requires CarriesLogin(pairs, login) && AllSensible(es[..i - 1])
    ensures FindsLogin(es[i].http.table, login) && HidesLogin(es[i].http.table, secret, login)
  {
    hide Seen, Follows, IsForm, ContextOf, CarriesLogin, FindsLogin, ShowsLogin, HidesLogin, AllSensible;
    LoginIsAnswered(es, parse, i, pairs, secret, login);
    SensibleLeavesSlot0(es[..i - 1], parse);
    ClearShows(ContextOf(es[..i - 1], parse).table[0], login);
  }

  /**
   * In terms of the requests: a key finds its own value exactly unless the last query on the descriptor that
   * named slot 0 did so with that key and slot 0 holds another value.
   */
  lemma AnswerByQueries(es: seq<Event<Context>>, parse: Parser<Context>, i: nat, page: string, pairs: seq<Param>,
                        k: nat)
    requires Seen(es, parse) && Follows(parse) && AnswersForm(es, i, page, pairs) && k < |pairs|
    requires AllFinish(es[..i - 1], parse)
    ensures History(Queries(es[..i - 1], parse)) && HasName(es[i].http.table, pairs[k].name)
    ensures Lookup(es[i].http.table, pairs[k].name) == pairs[k].value
            <==> !(LastNamed(Queries(es[..i - 1], parse), {pairs[k].name})
                   && TableAfter(Queries(es[..i - 1], parse))[0].value != pairs[k].value)
  {
    hide Seen, Follows, Uncut, FormText, Sends, GoodForm, ContextOf, AfterForm, HasName, Lookup, AllFinish, Queries,
      History, LastNamed, TableAfter, Sane;
    FormReachesResponse(es, parse, i, page, pairs);
    TableOfQueries(es[..i - 1], parse);
    FormAfterHistory(Queries(es[..i - 1], parse), pairs, k);
  }

  // ------------------------------------------------------------ the client before

  ghost predicate LeavesSlot0(data: seq<Words.Byte>) {
    (exists page, pairs :: IsForm(data, page, pairs)) || IsOther(data)
  }

  /** Callbacks whose requests leave slot 0 alone. */
  ghost predicate LeaveSlot0(es: seq<Event<Context>>) {
    forall c :: 0 <= c < |es| && es[c].Received? ==> LeavesSlot0(es[c].data)
  }

  lemma {:induction false} Slot0Stays(es: seq<Event<Context>>, mid: seq<Event<Context>>, parse: Parser<Context>)
    requires Follows(parse) && LeaveSlot0(mid)
    ensures ContextOf(es + mid, parse).table[0] == ContextOf(es, parse).table[0]
    decreases |mid|
  {
    hide Follows, IsForm, IsOther, ContextOf;
    if mid == [] {
      assert es + mid == es;
    } else {
      var init, e := mid[..|mid| - 1], mid[|mid| - 1];
      Slot0Stays(es, init, parse);
      assert es + mid == (es + init) + [e];
      OneMoreEvent(es + init, e, parse);
      if e.Received? {
        assert LeavesSlot0(mid[|mid| - 1].data);
        if page, pairs :| IsForm(e.data, page, pairs) {
          FormParsed(parse, ContextOf(es + init, parse), e.data, page, pairs);
        } else {
          OtherParsed(parse, ContextOf(es + init, parse), e.data);
        }
      }
    }
  }

  lemma ClosedBefore(es: seq<Event<Context>>, parse: Parser<Context>, b: nat)
    requires TcpSession.InOrder(BlankContext(), es, parse) && 0 < b < |es| && es[b].New?
    ensures es[b - 1].Close?
  {
    assert TcpSession.MayFollow(TcpSession.Last(es[..b]), es[b]);
  }

  /** What the cut form left in slot 0 is still there. */
  lemma CutFormStays(es: seq<Event<Context>>, parse: Parser<Context>, a: nat, i: nat, page: string, cut: seq<Param>)
    requires Follows(parse) && a < i <= |es| && es[a].Received? && IsCutForm(es[a].data, page, cut)
    requires LeaveSlot0(es[a + 1..i])
    ensures ContextOf(es[..i], parse).table[0]
            == Param(cut[0].name, FormText(cut)[|cut[0].name| + 1..Until(FormText(cut), '?')])
  {
    hide Follows, FormText, LeaveSlot0, ContextOf, Sends, GoodForm, Until, AlwaysFinishes, Uncut;
    var pre, mid := es[..a], es[a + 1..i];
    CutFormParsed(parse, ContextOf(pre, parse), es[a].data, page, cut);
    OneMoreEvent(pre, es[a], parse);
    Slot0Stays(pre + [es[a]], mid, parse);
    assert es[..i] == (pre + [es[a]]) + mid;
  }

  /**
   * In every run: after a cut form at position a and a new connection at position b on the same descriptor, the
   * response to a later client's complete form looks its first key up to the text of the client before.
   */
  lemma NextClientIsMistaken(es: seq<Event<Context>>, parse: Parser<Context>, a: nat, b: nat, i: nat, page: string,
                             cut: seq<Param>, page': string, form: seq<Param>, k: nat)
    requires Seen(es, parse) && Follows(parse) && a < b < i - 1 && AnswersForm(es, i, page', form)
    requires es[a].Received? && IsCutForm(es[a].data, page, cut) && es[b].New?
    requires LeaveSlot0(es[a + 1..i - 1]) && k < |form| && form[k].name == cut[0].name
    ensures es[b - 1].Close? && HasName(es[i].http.table, form[k].name)
    ensures Lookup(es[i].http.table, form[k].name) == FormText(cut)[|cut[0].name| + 1..Until(FormText(cut), '?')]
  {
    hide Seen, Follows, IsForm, FormText, LeaveSlot0, ContextOf, AfterForm, HasName, Lookup, Sends, GoodForm, Until,
      TcpSession.InOrder, Shows;
    SeenInOrder(es, parse);
    ClosedBefore(es, parse, b);
    CutFormStays(es, parse, a, i - 1, page, cut);
    FormReachesResponse(es, parse, i, page', form);
    var table := ContextOf(es[..i - 1], parse).table;
    assert table[0].name == form[k].name && es[i].http.table == AfterForm(table, form);
    FirstSlotAnswers(table, form);
  }
}
