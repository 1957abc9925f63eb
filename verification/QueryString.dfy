/**
 * The request context of http_main.c: the request line, the query string and the
 * parameter table, and the operations that fill and read them.
 */
module QueryString {
  import opened Wrappers
  import opened UrlDecode
  import opened Scan

  /** The sizes of the source's buffers, terminators included. */
  const TABLE_SIZE := 256
  const FIELD_SIZE := 256
  const METHOD_SIZE := 10
  const URI_SIZE := 512
  const QS_SIZE := 1024

  datatype Param = Param(name: string, value: string)

  /** A slot after the two conversions of "%[^=]=%s"; a field that was not assigned keeps its old text. */
  function Assign(slot: Param, f: Fields): Param {
    Param(if f.first.Some? then f.first.value else slot.name,
          if f.second.Some? then f.second.value else slot.value)
  }

  /** A field that was scanned is stored, and one that was not keeps its old text. */
  lemma AssignedFields(slot: Param, f: Fields)
    ensures Assign(slot, f).name == f.first.GetOr(slot.name) && Assign(slot, f).value == f.second.GetOr(slot.value)
  {
  }

  /** The fields that were assigned fit in their buffers. */
  predicate SlotFits(f: Fields) {
    (f.first.Some? ==> |f.first.value| < FIELD_SIZE) && (f.second.Some? ==> |f.second.value| < FIELD_SIZE)
  }

  /** The login address, if the text has both a part before the first '?' and a word after it. */
  function LoginPart(d: string): Option<string> {
    var f := Split(d, '?');
    if f.second.Some? then f.first else None
  }

  /** The text that is cut at '&'. */
  function ParamPart(d: string): string {
    var f := Split(d, '?');
    if f.second.Some? then f.second.value else d
  }

  /** Slot 0 receives the login address, the following slots the parameters in order; all others stay. */
  function FillTable(table: seq<Param>, d: string): (r: seq<Param>)
    requires |table| == TABLE_SIZE && |Tokenise(ParamPart(d), '&')| < TABLE_SIZE
    ensures |r| == TABLE_SIZE
  {
    var tokens := Tokenise(ParamPart(d), '&');
    seq(TABLE_SIZE, i requires 0 <= i < TABLE_SIZE =>
      if i == 0 then
        (if LoginPart(d).Some? then Assign(table[0], Split(LoginPart(d).value, '=')) else table[0])
      else if i <= |tokens| then Assign(table[i], Split(tokens[i - 1], '='))
      else table[i])
  }

  /** The first slot from number i on with the given name. */
  function FindSlot(table: seq<Param>, name: string, i: nat): (k: nat)
    requires i <= |table|
    ensures i <= k <= |table|
    ensures k < |table| ==> table[k].name == name
    ensures forall j :: i <= j < k ==> table[j].name != name
    decreases |table| - i
  {
    if i == |table| || table[i].name == name then i else FindSlot(table, name, i + 1)
  }

  predicate HasName(table: seq<Param>, name: string) {
    FindSlot(table, name, 0) < |table|
  }

  function Lookup(table: seq<Param>, name: string): (v: string)
    requires HasName(table, name)
  {
    table[FindSlot(table, name, 0)].value
  }

  /** The pages whose requests carry parameters. */
  predicate IsLoginPage(resource: string) {
    resource == "/prelogin.html" || resource == "/login_response.html"
  }

  /** The query string as the request leaves it, still escaped: the new one, or the one from before. */
  function QueryOf(f: Fields, previous: string): string {
    if f.second.Some? then f.second.value else previous
  }

  /** Every name and value of the decoded query string fits in its slot. */
  predicate ParamsFit(d: string) {
    && (LoginPart(d).Some? ==> SlotFits(Split(LoginPart(d).value, '=')))
    && |Tokenise(ParamPart(d), '&')| < TABLE_SIZE
    && forall i :: 0 <= i < |Tokenise(ParamPart(d), '&')| ==> SlotFits(Split(Tokenise(ParamPart(d), '&')[i], '='))
  }

  /** The query string can be decoded, has at least one parameter, and fits. */
  predicate Parsable(query: string) {
    && |query| < QS_SIZE && Decodable(query)
    && Tokenise(ParamPart(Decode(query)), '&') != [] && ParamsFit(Decode(query))
  }

  /** The second word of the request line, or the previous resource name if there is none. */
  function Target(uri: string, previous: string): string {
    if Word(uri).Some? && Word(AfterWord(uri)).Some? then Word(AfterWord(uri)).value else previous
  }

  /** The request line and what is scanned from it fit in their buffers. */
  predicate LineFits(uri: string, previous: string) {
    var page, rest := Split(Target(uri, previous), '?').first, AfterWord(AfterWord(uri));
    && |uri| < URI_SIZE
    && (Word(uri).Some? ==> |Word(uri).value| < METHOD_SIZE)
    && (Word(rest).Some? ==> |Word(rest).value| < METHOD_SIZE)
    && (page.Some? ==> |page.value| < FIELD_SIZE)
  }

  /** The header lines are not more than the table for them holds, and their fields fit. */
  predicate HeadersFit(request: string) {
    && |Lines(request)| <= TABLE_SIZE
    && forall i :: 0 < i < |Lines(request)| ==> SlotFits(Split(Lines(request)[i], ':'))
  }

  // --------------------------------------------------------- a request on values

  type Table = t: seq<Param> | |t| == TABLE_SIZE witness seq(TABLE_SIZE, _ => Param("", ""))

  /** What a context holds. */
  datatype HttpState = HttpState(uri: string, verb: string, resource: string, qs: string, count: nat, table: Table)

  /** After the scans of the request line; tmp is what the uninitialised buffer for the resource name holds. */
  function UriScanned(h: HttpState, tmp: string): HttpState {
    var f := Split(Target(h.uri, h.resource), '?');
    h.(verb := Word(h.uri).GetOr(h.verb), resource := f.first.GetOr(tmp), qs := QueryOf(f, h.qs))
  }

  function Scanned(h: HttpState, request: string, tmp: string): HttpState {
    UriScanned(h.(uri := FirstLine(request).GetOr(h.uri)), tmp)
  }

  /** Characters that C strings are made of: bytes other than NUL. */
  predicate Wire(s: string) {
    forall i :: 0 <= i < |s| ==> 0 < s[i] as int < 0x100
  }

  /** What an uninitialised buffer for the resource name may hold. */
  predicate InBuffer(tmp: string) {
    |tmp| < FIELD_SIZE && Wire(tmp)
  }

  /** The parser comes to an end and stays inside its buffers. */
  predicate Finishes(h: HttpState, request: string, tmp: string) {
    && HeadersFit(request) && LineFits(FirstLine(request).GetOr(h.uri), h.resource) && InBuffer(tmp)
    && (IsLoginPage(Scanned(h, request, tmp).resource) ==> Parsable(Scanned(h, request, tmp).qs))
  }

  function QsParsed(h: HttpState): HttpState
    requires Parsable(h.qs)
  {
    var d := Decode(h.qs);
    h.(qs := d, count := |Tokenise(ParamPart(d), '&')|, table := FillTable(h.table, d))
  }

  /** What a whole request makes of the context: only the login pages have their query string parsed. */
  function Processed(h: HttpState, request: string, tmp: string): HttpState
    requires Finishes(h, request, tmp)
  {
    var t := Scanned(h, request, tmp);
    if IsLoginPage(t.resource) then QsParsed(t) else t
  }

  /** The table is filled from the decoded query on these two pages, and on no other. */
  lemma ProcessedTable(h: HttpState, request: string, tmp: string)
    requires Finishes(h, request, tmp)
    ensures var r := Processed(h, request, tmp);
            if r.resource == "/prelogin.html" || r.resource == "/login_response.html" then
              |Tokenise(ParamPart(r.qs), '&')| < TABLE_SIZE && r.table == FillTable(h.table, r.qs)
            else
              r.table == h.table
  {
    hide FirstLine, Target, Word, Decode, Decodable, Tokenise, FillTable, ParamPart, LoginPart, SlotFits;
    hide Split, LineFits, HeadersFit;
  }

  class HttpContext {
    var uri: string
    var requestMethod: string
    var resourceName: string
    var qs: string
    var maxQsParamListNum: nat
    const paramList: array<Param>

    ghost predicate Shape()
      reads this
    {
      paramList.Length == TABLE_SIZE
    }

    ghost function State(): HttpState
      requires Shape()
      reads this, paramList
    {
      HttpState(uri, requestMethod, resourceName, qs, maxQsParamListNum, paramList[..])
    }

    /** A zeroed context. */
    constructor ()
      ensures Shape() && fresh(paramList)
      ensures uri == requestMethod == resourceName == qs == "" && maxQsParamListNum == 0
      ensures forall i :: 0 <= i < TABLE_SIZE ==> paramList[i] == Param("", "")
    {
      uri, requestMethod, resourceName, qs, maxQsParamListNum := "", "", "", "", 0;
      paramList := new Param[TABLE_SIZE](i => Param("", ""));
    }

    /** Replaces the query string by its decoding; on any other text the loop would never end. */
    method DecodeUrl()
      requires Decodable(qs)
      modifies this`qs
      ensures qs == Decode(old(qs))
    {
      var text := qs;
      var idx := 0;
      var decoded := "";
      assert text[0..] == text;
      while idx < |text|
        invariant 0 <= idx <= |text| && Decodable(text[idx..])
        invariant decoded + Decode(text[idx..]) == Decode(text)
        decreases |text| - idx
      {
        hide Decodable, Decode, Text;
        ghost var c := Cursor(idx, decoded);
        LoopBodyDecodes(text, c);
        var rest := text[idx..];
        if rest[0] != '%' {
          decoded := decoded + [rest[0]];
          idx := idx + 1;
        } else {
          var e := Recognise(rest, 0).value;
          decoded := decoded + [Plain(e)];
          idx := idx + |Text(e)|;
        }
        assert LoopBody(text, c) == Cursor(idx, decoded);
      }
      qs := decoded;
    }

    /** Scans one "name=value" text into a slot. */
    method ScanParam(i: nat, text: string)
      requires Shape() && i < TABLE_SIZE && SlotFits(Split(text, '='))
      modifies paramList
      ensures paramList[..] == old(paramList[..])[i := Assign(old(paramList[i]), Split(text, '='))]
    {
      var f := Split(text, '=');
      if f.first.Some? {
        paramList[i] := paramList[i].(name := f.first.value);
      }
      if f.second.Some? {
        paramList[i] := paramList[i].(value := f.second.value);
      }
    }

    /** The parameter loop: strtok is called once before it and then after every slot. */
    method ParseParams(text: string) returns (count: nat)
      requires Shape() && 0 < |Tokenise(text, '&')| < TABLE_SIZE
      requires forall i :: 0 <= i < |Tokenise(text, '&')| ==> SlotFits(Split(Tokenise(text, '&')[i], '='))
      modifies paramList
      ensures count == |Tokenise(text, '&')|
      ensures forall i :: 0 < i <= count ==>
                paramList[i] == Assign(old(paramList[i]), Split(Tokenise(text, '&')[i - 1], '='))
      ensures forall i :: 0 <= i < TABLE_SIZE && (i == 0 || count < i) ==> paramList[i] == old(paramList[i])
    {
      hide Tokenise, NextToken, Split, Assign, SlotFits;
      ghost var tokens := Tokenise(text, '&');
      var next := NextToken(text, '&');
      TokeniseUnfolds(text, '&');
      count := 0;
      while next.Some?
        invariant count <= |tokens|
        invariant tokens[count..] == Remaining(next, '&')
        invariant forall i :: 0 < i <= count ==> paramList[i] == Assign(old(paramList[i]), Split(tokens[i - 1], '='))
        invariant forall i :: 0 <= i < TABLE_SIZE && (i == 0 || count < i) ==> paramList[i] == old(paramList[i])
        decreases |tokens| - count
      {
        assert tokens[count] == tokens[count..][0];
        assert tokens[count + 1..] == tokens[count..][1..];
        TokeniseUnfolds(next.value.1, '&');
        count := count + 1;
        ScanParam(count, next.value.0);
        next := NextToken(next.value.1, '&');
      }
    }

    /** Decodes the query string and fills the parameter table from it. */
    method ParseQs()
      requires Shape() && Parsable(qs)
      modifies this`qs, this`maxQsParamListNum, paramList
      ensures State() == QsParsed(old(State()))
    {
      hide Decode, Decodable, Tokenise, Split, SlotFits, Assign, Word;
      DecodeUrl();
      var f := Split(qs, '?');
      var text := qs;
      if f.second.Some? {
        ScanParam(0, f.first.value);
        text := f.second.value;
      }
      maxQsParamListNum := ParseParams(text);
      assert paramList[..] == FillTable(old(paramList[..]), qs);
    }

    /** The value of the first slot with the name; the caller makes sure there is one. */
    method GetParamValue(name: string) returns (value: string)
      requires Shape() && HasName(paramList[..], name)
      ensures value == Lookup(paramList[..], name)
    {
      var idx := 0;
      ghost var k := FindSlot(paramList[..], name, 0);
      while paramList[idx].name != name
        invariant 0 <= idx <= k
        decreases k - idx
      {
        idx := idx + 1;
      }
      value := paramList[idx].value;
    }

    /** Splits the request line; returns what the second scan returns. */
    method ParseUri() returns (status: int, ghost tmp: string)
      requires Shape() && LineFits(uri, resourceName)
      modifies this`requestMethod, this`resourceName, this`qs
      ensures InBuffer(tmp) && State() == UriScanned(old(State()), tmp)
      ensures var f := Split(Target(uri, old(resourceName)), '?');
              status == (if f.second.Some? then 2 else if f.first.Some? then 1
                         else if Target(uri, old(resourceName)) == "" then -1 else 0)
    {
      hide Split, Word, AfterWord, LineFits;
      assert InBuffer("");
      var w1 := Word(uri);
      if w1.Some? {
        requestMethod := w1.value;
        var w2 := Word(AfterWord(uri));
        if w2.Some? {
          resourceName := w2.value;
        }
      }
      var buffer: string :| InBuffer(buffer);
      tmp := buffer;
      var f := Split(resourceName, '?');
      status := if resourceName == "" then -1 else 0;
      if f.first.Some? {
        buffer, status := f.first.value, 1;
      }
      if f.second.Some? {
        qs, status := f.second.value, 2;
      }
      resourceName := buffer;
    }

    /** Handles a request: splits its first line and, on the login pages, fills the parameter table. */
    method ProcessRequest(request: string) returns (ghost tmp: string)
      requires Shape() && forall tmp | InBuffer(tmp) :: Finishes(State(), request, tmp)
      modifies this`uri, this`requestMethod, this`resourceName, this`qs, this`maxQsParamListNum, paramList
      ensures Finishes(old(State()), request, tmp) && State() == Processed(old(State()), request, tmp)
      ensures resourceName == "/prelogin.html" || resourceName == "/login_response.html" ==>
                |Tokenise(ParamPart(qs), '&')| < TABLE_SIZE && paramList[..] == FillTable(old(paramList[..]), qs)
      ensures resourceName != "/prelogin.html" && resourceName != "/login_response.html" ==>
                paramList[..] == old(paramList[..])
    {
      hide UriScanned, QsParsed, FirstLine, IsLoginPage, Parsable, LineFits, HeadersFit, FillTable, Tokenise, ParamPart;
      assert InBuffer("") && Finishes(State(), request, "");
      ghost var before := State();
      uri := FirstLine(request).GetOr(uri);
      var _, buffer := ParseUri();
      tmp := buffer;
      assert Finishes(before, request, tmp);
      if IsLoginPage(resourceName) {
        ParseQs();
      }
      ProcessedTable(before, request, tmp);
      assert State().table == paramList[..];
    }
  }
}
