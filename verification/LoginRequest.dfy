/**
 * The login request from end to end: what a client serialises as
 * loginurl=U?k1=v1&...&kn=vn and escapes with the decoder's spellings is what the
 * parameter table holds and the lookups return afterwards.
 */
module LoginRequest {
  import opened Wrappers
  import opened UrlDecode
  import opened Scan
  import opened QueryString

  const LOGIN := "loginurl"

  function PairText(p: Param): string {
    p.name + ['='] + p.value
  }

  function PairTexts(pairs: seq<Param>): (texts: seq<string>)
    ensures |texts| == |pairs|
    ensures forall i :: 0 <= i < |pairs| ==> texts[i] == PairText(pairs[i])
  {
    seq(|pairs|, i requires 0 <= i < |pairs| => PairText(pairs[i]))
  }

  function Serialise(u: string, pairs: seq<Param>): string {
    PairText(Param(LOGIN, u)) + ['?'] + JoinTokens(PairTexts(pairs), '&')
  }

  predicate Solid(s: string) {
    s != "" && !HasSpace(s)
  }

  predicate Free(s: string, c: char) {
    forall i :: 0 <= i < |s| ==> s[i] != c
  }

  predicate GoodPair(p: Param) {
    && Solid(p.name) && Free(p.name, '=') && Free(p.name, '&') && |p.name| < FIELD_SIZE
    && Solid(p.value) && Free(p.value, '&') && |p.value| < FIELD_SIZE
  }

  predicate Admissible(u: string, pairs: seq<Param>) {
    && Solid(u) && Free(u, '?') && |u| < FIELD_SIZE
    && 0 < |pairs| < TABLE_SIZE
    && (forall i :: 0 <= i < |pairs| ==> GoodPair(pairs[i]))
    && (forall i, j :: 0 <= i < j < |pairs| ==> pairs[i].name != pairs[j].name)
  }

  // ---------------------------------------------------------------- the pieces

  lemma NoSpace(c: char)
    requires c == '=' || c == '&' || c == '?'
    ensures !IsSpace(c)
  {
  }

  lemma PairTextSolid(p: Param)
    requires Solid(p.name) && Solid(p.value)
    ensures Solid(PairText(p))
  {
    hide IsSpace;
    assert !IsSpace('=') by { NoSpace('='); }
    SpaceInEither(p.name, ['=']);
    SpaceInEither(p.name + ['='], p.value);
  }

  lemma {:induction false} JoinSolid(tokens: seq<string>, c: char)
    requires tokens != [] && !IsSpace(c) && forall i :: 0 <= i < |tokens| ==> Solid(tokens[i])
    ensures Solid(JoinTokens(tokens, c))
    decreases |tokens|
  {
    hide IsSpace;
    if |tokens| > 1 {
      JoinSolid(tokens[1..], c);
      SpaceInEither(tokens[0], [c]);
      SpaceInEither(tokens[0] + [c], JoinTokens(tokens[1..], c));
    }
  }

  lemma PairTextFree(p: Param, c: char)
    requires Free(p.name, c) && Free(p.value, c) && c != '='
    ensures Free(PairText(p), c)
  {
  }

  lemma FreeIsNotIn(s: string, c: char)
    requires Free(s, c)
    ensures c !in s
  {
  }

  /** One "name=value" text fills a slot, whatever was in it before. */
  lemma PairFillsSlot(slot: Param, p: Param)
    requires Solid(p.name) && Free(p.name, '=') && Solid(p.value)
    ensures Assign(slot, Split(PairText(p), '=')) == p
  {
    hide Split;
    FreeIsNotIn(p.name, '=');
    SplitJoins(p.name, '=', p.value);
  }

  lemma LoginIsSolid()
    ensures Solid(LOGIN) && Free(LOGIN, '=') && Free(LOGIN, '?')
  {
  }

  /** The first scan takes the serialised request apart at its first '?'. */
  lemma SerialisedSplits(u: string, pairs: seq<Param>)
    requires Admissible(u, pairs)
    ensures LoginPart(Serialise(u, pairs)) == Some(PairText(Param(LOGIN, u)))
    ensures Tokenise(ParamPart(Serialise(u, pairs)), '&') == PairTexts(pairs)
  {
    hide Split, Tokenise, HasSpace, IsSpace, PairText, JoinTokens;
    var login, texts := Param(LOGIN, u), PairTexts(pairs);
    LoginIsSolid();
    PairTextSolid(login);
    PairTextFree(login, '?');
    FreeIsNotIn(PairText(login), '?');
    forall i | 0 <= i < |pairs| ensures Solid(texts[i]) && '&' !in texts[i] {
      PairTextSolid(pairs[i]);
      PairTextFree(pairs[i], '&');
      FreeIsNotIn(texts[i], '&');
    }
    NoSpace('&');
    JoinSolid(texts, '&');
    SplitJoins(PairText(login), '?', JoinTokens(texts, '&'));
    TokeniseJoins(texts, '&');
  }

  // ----------------------------------------------------------------- the table

  function After(table: seq<Param>, u: string, pairs: seq<Param>): (r: seq<Param>)
    requires |table| == TABLE_SIZE && |pairs| < TABLE_SIZE
    ensures |r| == TABLE_SIZE
  {
    [Param(LOGIN, u)] + pairs + table[|pairs| + 1..]
  }

  /** Slot 0 holds the address, the pairs follow in order, and every later slot keeps what it had. */
  lemma TableFilled(table: seq<Param>, u: string, pairs: seq<Param>)
    requires |table| == TABLE_SIZE && Admissible(u, pairs)
    ensures |Tokenise(ParamPart(Serialise(u, pairs)), '&')| == |pairs|
    ensures FillTable(table, Serialise(u, pairs)) == After(table, u, pairs)
  {
    hide Split, Tokenise, LoginPart, ParamPart, Assign, Serialise, PairText, Solid, Free;
    SerialisedSplits(u, pairs);
    LoginIsSolid();
    PairFillsSlot(table[0], Param(LOGIN, u));
    var r := FillTable(table, Serialise(u, pairs));
    forall i | 0 < i <= |pairs| ensures r[i] == pairs[i - 1] {
      PairFillsSlot(table[i], pairs[i - 1]);
    }
  }

  lemma FindSlotUnique(table: seq<Param>, name: string, i: nat, k: nat)
    requires i <= k < |table| && table[k].name == name
    requires forall j :: i <= j < k ==> table[j].name != name
    ensures FindSlot(table, name, i) == k
  {
  }

  /** Every key but loginurl finds its own value; loginurl finds the address. */
  lemma LookupsAfter(table: seq<Param>, u: string, pairs: seq<Param>, i: nat)
    requires |table| == TABLE_SIZE && Admissible(u, pairs) && i < |pairs|
    ensures HasName(After(table, u, pairs), pairs[i].name) && HasName(After(table, u, pairs), LOGIN)
    ensures Lookup(After(table, u, pairs), LOGIN) == u
    ensures pairs[i].name != LOGIN ==> Lookup(After(table, u, pairs), pairs[i].name) == pairs[i].value
  {
    hide GoodPair, Solid, Free;
    var t := After(table, u, pairs);
    assert forall j :: 0 < j <= |pairs| ==> t[j] == pairs[j - 1];
    FindSlotUnique(t, LOGIN, 0, 0);
    if pairs[i].name != LOGIN {
      FindSlotUnique(t, pairs[i].name, 0, i + 1);
    }
  }

  /**
   * From end to end: however the serialised request is escaped, decoding it and
   * filling any table gives the pairs back, and looking a key up gives its value.
   */
  lemma LoginRoundTrip(table: seq<Param>, u: string, pairs: seq<Param>, pieces: seq<string>)
    requires |table| == TABLE_SIZE && Admissible(u, pairs) && Encodes(pieces, Serialise(u, pairs))
    ensures Decodable(Joined(pieces)) && Decode(Joined(pieces)) == Serialise(u, pairs)
    ensures |Tokenise(ParamPart(Decode(Joined(pieces))), '&')| == |pairs|
    ensures var t := FillTable(table, Decode(Joined(pieces)));
            && t == After(table, u, pairs)
            && HasName(t, LOGIN) && Lookup(t, LOGIN) == u
            && forall i :: 0 <= i < |pairs| ==>
                 && HasName(t, pairs[i].name)
                 && (pairs[i].name != LOGIN ==> Lookup(t, pairs[i].name) == pairs[i].value)
  {
    hide Decode, Decodable, Tokenise, ParamPart, FillTable, Serialise, Encodes, HasName, Lookup, After;
    DecodeInvertsEncoders(pieces, Serialise(u, pairs));
    TableFilled(table, u, pairs);
    forall i: nat | i < |pairs|
      ensures HasName(After(table, u, pairs), pairs[i].name) && HasName(After(table, u, pairs), LOGIN)
      ensures Lookup(After(table, u, pairs), LOGIN) == u
      ensures pairs[i].name != LOGIN ==> Lookup(After(table, u, pairs), pairs[i].name) == pairs[i].value
    {
      LookupsAfter(table, u, pairs, i);
    }
    LookupsAfter(table, u, pairs, 0);
  }

  // ------------------------------------------------------------ the whole request

  /** How a request line ends: with the protocol, if there is one. */
  function Ending(proto: string): string {
    if proto == "" then "" else " " + proto
  }

  /** A request: its first line, and whatever header lines follow. */
  function RequestText(verb: string, target: string, proto: string, headers: string): string {
    verb + " " + (target + Ending(proto)) + "\r\n" + headers
  }

  /** A request that fits in the source's buffers. */
  predicate GoodRequest(verb: string, target: string, proto: string, headers: string) {
    && Solid(verb) && |verb| < METHOD_SIZE && !HasSpace(proto) && |proto| < METHOD_SIZE
    && Solid(target) && Until(target, '?') < FIELD_SIZE
    && |verb| + 1 + |target| + |Ending(proto)| < URI_SIZE
    && HeadersFit(RequestText(verb, target, proto, headers))
  }

  lemma LineEndIsSpace(s: string)
    requires !HasSpace(s)
    ensures forall i :: 0 <= i < |s| ==> !IsLineEnd(s[i])
  {
  }

  lemma NoSpaceIn(c: char)
    requires !IsSpace(c)
    ensures !HasSpace([c])
  {
  }

  lemma LineOf(verb: string, target: string, proto: string)
    requires Solid(verb) && Solid(target) && !HasSpace(proto)
    ensures var line := verb + " " + (target + Ending(proto));
            line != "" && forall i :: 0 <= i < |line| ==> !IsLineEnd(line[i])
  {
    LineEndIsSpace(verb);
    LineEndIsSpace(target);
    LineEndIsSpace(proto);
  }

  lemma FirstSolid(s: string)
    requires Solid(s)
    ensures !IsSpace(s[0])
  {
  }

  lemma WordOfTarget(target: string, proto: string)
    requires Solid(target)
    ensures Word(target + Ending(proto)) == Some(target) && AfterWord(target + Ending(proto)) == Ending(proto)
  {
    hide HasSpace;
    if proto == "" {
      assert target + "" == target;
      WordOfSolid(target);
      UntilSpaceUnique(target, |target|);
    } else {
      assert target + Ending(proto) == target + " " + proto;
      WordBeforeSpace(target, proto);
    }
  }

  lemma WordAfterSpace(target: string, proto: string)
    requires Solid(target)
    ensures Word(" " + (target + Ending(proto))) == Some(target)
    ensures AfterWord(" " + (target + Ending(proto))) == Ending(proto)
  {
    hide HasSpace, Ending;
    var s := target + Ending(proto);
    assert (" " + s)[1..] == s;
    WordOfTarget(target, proto);
    assert !IsSpace(s[0]) by { FirstSolid(target); }
    assert SkipSpace(" " + s) == s == SkipSpace(s);
  }

  lemma LastWord(proto: string)
    requires !HasSpace(proto)
    ensures Word(Ending(proto)) == if proto == "" then None else Some(proto)
  {
    hide HasSpace;
    if proto != "" {
      assert (" " + proto)[1..] == proto;
      assert !IsSpace(proto[0]) by { FirstSolid(proto); }
      WordOfSolid(proto);
      assert SkipSpace(" " + proto) == proto == SkipSpace(proto);
    }
  }

  /** The scans of the request line find its words. */
  lemma RequestSplits(verb: string, target: string, proto: string, headers: string, was: string)
    requires GoodRequest(verb, target, proto, headers)
    ensures var line := FirstLine(RequestText(verb, target, proto, headers));
            && line.Some? && Word(line.value) == Some(verb) && Target(line.value, was) == target
            && LineFits(line.value, was)
  {
    hide FirstLine, Word, AfterWord, IsSpace, IsLineEnd, HasSpace, HeadersFit, Ending;
    var line := verb + " " + (target + Ending(proto));
    LineOf(verb, target, proto);
    FirstLineBefore(line, headers);
    WordBeforeSpace(verb, target + Ending(proto));
    WordAfterSpace(target, proto);
    LastWord(proto);
  }

  lemma EncodedSolid(pieces: seq<string>, plain: string)
    requires Encodes(pieces, plain) && Solid(plain)
    ensures Decodable(Joined(pieces)) && Decode(Joined(pieces)) == plain && Solid(Joined(pieces))
  {
    hide Encodes, HasSpace;
    DecodeInvertsEncoders(pieces, plain);
    SpaceStays(Joined(pieces));
  }

  lemma SerialisedSolid(u: string, pairs: seq<Param>)
    requires Admissible(u, pairs)
    ensures Solid(Serialise(u, pairs))
  {
    hide Split, Tokenise, HasSpace, IsSpace, PairText, JoinTokens;
    var login, texts := Param(LOGIN, u), PairTexts(pairs);
    LoginIsSolid();
    PairTextSolid(login);
    forall i | 0 <= i < |pairs| ensures Solid(texts[i]) {
      PairTextSolid(pairs[i]);
    }
    NoSpace('&');
    NoSpace('?');
    NoSpaceIn('?');
    JoinSolid(texts, '&');
    SpaceInEither(PairText(login), ['?']);
    SpaceInEither(PairText(login) + ['?'], JoinTokens(texts, '&'));
  }

  lemma PageIsSolid(page: string)
    requires IsLoginPage(page)
    ensures Solid(page) && Free(page, '?')
  {
  }

  lemma FewerThanSlots(u: string, pairs: seq<Param>)
    requires Admissible(u, pairs)
    ensures 0 < |pairs| < TABLE_SIZE
  {
  }

  /** A page with a query, as the target of a request. */
  function Asks(page: string, query: string): string {
    page + ['?'] + query
  }

  lemma AsksSplits(page: string, query: string)
    requires Solid(page) && Free(page, '?') && Solid(query)
    ensures Solid(Asks(page, query)) && Split(Asks(page, query), '?') == Fields(Some(page), Some(query))
  {
    hide Split, HasSpace, IsSpace;
    SpaceInEither(page, ['?']);
    NoSpace('?');
    NoSpaceIn('?');
    SpaceInEither(page + ['?'], query);
    FreeIsNotIn(page, '?');
    SplitJoins(page, '?', query);
  }

  /** What the context is left with when the target of the request names a page. */
  lemma TargetScanned(h: HttpState, verb: string, target: string, proto: string, headers: string, tmp: string)
    requires GoodRequest(verb, target, proto, headers) && Split(target, '?').first.Some?
    ensures var t, f := Scanned(h, RequestText(verb, target, proto, headers), tmp), Split(target, '?');
            && t.verb == verb && t.resource == f.first.value
            && t.qs == QueryOf(f, h.qs) && t.table == h.table && t.count == h.count
    ensures LineFits(FirstLine(RequestText(verb, target, proto, headers)).GetOr(h.uri), h.resource)
  {
    hide Split, FirstLine, Target, Word, LineFits, GoodRequest, RequestText;
    RequestSplits(verb, target, proto, headers, h.resource);
  }

  lemma PairSlotFits(p: Param)
    requires Solid(p.name) && Free(p.name, '=') && Solid(p.value) && |p.name| < FIELD_SIZE && |p.value| < FIELD_SIZE
    ensures SlotFits(Split(PairText(p), '='))
  {
    hide Split;
    FreeIsNotIn(p.name, '=');
    SplitJoins(p.name, '=', p.value);
  }

  /** A query string that decodes to good pairs over any table can be parsed. */
  lemma PairsParsable(query: string, pairs: seq<Param>)
    requires Decodable(query) && |query| < QS_SIZE && 0 < |pairs| < TABLE_SIZE
    requires forall i :: 0 <= i < |pairs| ==> GoodPair(pairs[i])
    requires Tokenise(ParamPart(Decode(query)), '&') == PairTexts(pairs)
    requires LoginPart(Decode(query)).Some? ==> SlotFits(Split(LoginPart(Decode(query)).value, '='))
    ensures Parsable(query)
  {
    hide Decode, Decodable, Tokenise, LoginPart, ParamPart, Split, SlotFits, PairText;
    forall i | 0 <= i < |pairs| ensures SlotFits(Split(PairTexts(pairs)[i], '=')) {
      assert GoodPair(pairs[i]);
      PairSlotFits(pairs[i]);
    }
  }

  lemma SerialisedParsable(query: string, u: string, pairs: seq<Param>)
    requires Decodable(query) && |query| < QS_SIZE && Admissible(u, pairs) && Decode(query) == Serialise(u, pairs)
    ensures Parsable(query)
  {
    hide Decode, Decodable, Tokenise, LoginPart, ParamPart, Split, SlotFits, PairText, Serialise, Solid, Free,
      GoodPair;
    SerialisedSplits(u, pairs);
    LoginIsSolid();
    PairSlotFits(Param(LOGIN, u));
    PairsParsable(query, pairs);
  }

  lemma AsksLength(verb: string, page: string, query: string, proto: string, headers: string)
    requires GoodRequest(verb, Asks(page, query), proto, headers)
    ensures |query| < QS_SIZE && HeadersFit(RequestText(verb, Asks(page, query), proto, headers))
  {
  }

  /** However the serialised request is escaped, the context holds the page and the table the client meant. */
  lemma LoginProcessed(h: HttpState, verb: string, page: string, u: string, pairs: seq<Param>, pieces: seq<string>,
                       proto: string, headers: string, tmp: string)
    requires IsLoginPage(page) && GoodRequest(verb, Asks(page, Joined(pieces)), proto, headers) && InBuffer(tmp)
    requires Admissible(u, pairs) && Encodes(pieces, Serialise(u, pairs))
    ensures |pairs| < TABLE_SIZE
    ensures var request := RequestText(verb, Asks(page, Joined(pieces)), proto, headers);
            && Finishes(h, request, tmp)
            && var r := Processed(h, request, tmp);
               r.verb == verb && r.resource == page && r.count == |pairs| && r.table == After(h.table, u, pairs)
  {
    hide Admissible, Encodes, Serialise, Solid, Free, Scanned, Decode, Decodable, Tokenise, FillTable, After,
      ParamPart, IsLoginPage, RequestText, GoodRequest, Asks, Split, LineFits, HeadersFit, Parsable, InBuffer;
    SerialisedSolid(u, pairs);
    EncodedSolid(pieces, Serialise(u, pairs));
    PageIsSolid(page);
    AsksSplits(page, Joined(pieces));
    AsksLength(verb, page, Joined(pieces), proto, headers);
    TargetScanned(h, verb, Asks(page, Joined(pieces)), proto, headers, tmp);
    SerialisedParsable(Joined(pieces), u, pairs);
    FewerThanSlots(u, pairs);
    TableFilled(h.table, u, pairs);
  }

  lemma FinishesInBuffer(h: HttpState, request: string, tmp: string)
    requires Finishes(h, request, tmp)
    ensures InBuffer(tmp)
  {
  }

  /** A context that receives the request is left so. */
  method ServeLogin(ctx: HttpContext, verb: string, page: string, u: string, pairs: seq<Param>, pieces: seq<string>,
                    proto: string, headers: string)
    requires ctx.Shape() && IsLoginPage(page) && GoodRequest(verb, Asks(page, Joined(pieces)), proto, headers)
    requires Admissible(u, pairs) && Encodes(pieces, Serialise(u, pairs))
    modifies ctx, ctx.paramList
    ensures ctx.requestMethod == verb && ctx.resourceName == page && ctx.maxQsParamListNum == |pairs|
    ensures ctx.paramList[..] == After(old(ctx.paramList[..]), u, pairs)
  {
    hide Admissible, Encodes, Serialise, Finishes, Processed, After, IsLoginPage, RequestText, GoodRequest, Asks,
      InBuffer;
    ghost var before := ctx.State();
    var request := RequestText(verb, Asks(page, Joined(pieces)), proto, headers);
    forall tmp | InBuffer(tmp) ensures Finishes(before, request, tmp) {
      LoginProcessed(before, verb, page, u, pairs, pieces, proto, headers, tmp);
    }
    ghost var tmp := ctx.ProcessRequest(request);
    assert InBuffer(tmp) by { FinishesInBuffer(before, request, tmp); }
    LoginProcessed(before, verb, page, u, pairs, pieces, proto, headers, tmp);
    assert ctx.State().table == After(before.table, u, pairs);
  }

  // ----------------------------------------------------------- lines that say less

  /** A line of one word leaves the target, and with it the page and the query, to what was there before. */
  lemma OneWordLine(h: HttpState, verb: string, headers: string, tmp: string)
    requires Solid(verb)
    ensures var t, f := Scanned(h, verb + "\r\n" + headers, tmp), Split(h.resource, '?');
            && t.uri == verb && t.verb == verb && t.resource == f.first.GetOr(tmp) && t.qs == QueryOf(f, h.qs)
  {
    hide Split, HasSpace, IsSpace, IsLineEnd;
    LineEndIsSpace(verb);
    FirstLineBefore(verb, headers);
    WordOfSolid(verb);
    FirstSolid(verb);
    UntilSpaceUnique(verb, |verb|);
    assert AfterWord(verb) == "";
  }

  /** A request without a line keeps the line of the request before it. */
  lemma NoLine(h: HttpState, request: string, tmp: string)
    requires forall i :: 0 <= i < |request| ==> IsLineEnd(request[i])
    ensures Scanned(h, request, tmp) == UriScanned(h, tmp) && Scanned(h, request, tmp).uri == h.uri
  {
    hide Split, IsLineEnd;
  }

  /** What a serialised request looks like. */
  lemma SerialisedText(u: string, k: string, v: string)
    ensures Serialise(u, [Param(k, v)]) == "loginurl=" + u + "?" + k + "=" + v
  {
    var texts := PairTexts([Param(k, v)]);
    assert texts == [PairText(Param(k, v))];
    assert LOGIN + ['='] == "loginurl=";
    assert JoinTokens(texts, '&') == k + "=" + v;
  }
}
