/**
 * The parameter tables that the requests on one context leave behind, starting from the
 * zeroed one: slots are never cleared, so later answers can be those of earlier requests.
 */
module RequestHistory {
  import opened Wrappers
  import opened UrlDecode
  import opened Scan
  import opened QueryString
  import opened LoginRequest

  // ------------------------------------------------------------------- histories

  function Blank(): (t: seq<Param>)
    ensures |t| == TABLE_SIZE
    ensures forall i :: 0 <= i < TABLE_SIZE ==> t[i] == Param("", "")
  {
    seq(TABLE_SIZE, _ => Param("", ""))
  }

  /** The longest query string of a request line: the shortest line with one is "G /?q". */
  const QUERY_MAX := URI_SIZE - 5

  /** An escaped query string as the scan of the request line delivers it, of a request the parser finishes. */
  predicate Query(q: string) {
    Solid(q) && Wire(q) && |q| <= QUERY_MAX && Parsable(q)
  }

  predicate History(h: seq<string>) {
    forall i :: 0 <= i < |h| ==> Query(h[i])
  }

  /** The table after the queries have been parsed in order. */
  function TableAfter(h: seq<string>): (t: seq<Param>)
    requires History(h)
    ensures |t| == TABLE_SIZE
  {
    if h == [] then Blank() else FillTable(TableAfter(h[..|h| - 1]), Decode(h[|h| - 1]))
  }

  lemma OneMoreQuery(h: seq<string>, q: string)
    requires History(h) && Query(q)
    ensures History(h + [q]) && TableAfter(h + [q]) == FillTable(TableAfter(h), Decode(q))
  {
    hide Query;
    assert (h + [q])[..|h|] == h;
  }

  // -------------------------------------------------------- what slots can hold

  /** A name that some request can leave in a slot of its parameters. */
  predicate Storable(k: string) {
    Solid(k) && Wire(k) && Free(k, '=') && Free(k, '&') && Free(k, '%') && |k| < FIELD_SIZE
  }

  predicate Within(a: string, s: string) {
    forall i :: 0 <= i < |a| ==> a[i] in s
  }

  lemma WithinTail(a: string, s: string, n: nat)
    requires n <= |s| && Within(a, s[n..])
    ensures Within(a, s)
  {
  }

  lemma {:induction false} NextTokenWithin(s: string, c: char)
    requires NextToken(s, c).Some?
    ensures Within(NextToken(s, c).value.0, s) && Within(NextToken(s, c).value.1, s)
  {
    if s[0] == c {
      NextTokenWithin(s[1..], c);
      WithinTail(NextToken(s, c).value.0, s, 1);
      WithinTail(NextToken(s, c).value.1, s, 1);
    }
  }

  lemma {:induction false} TokensWithin(s: string, c: char, i: nat)
    requires i < |Tokenise(s, c)|
    ensures Within(Tokenise(s, c)[i], s)
    decreases |s|
  {
    hide NextToken;
    NextTokenWithin(s, c);
    if i > 0 {
      TokensWithin(NextToken(s, c).value.1, c, i - 1);
    }
  }

  lemma ParamPartWithin(d: string)
    requires Solid(d)
    ensures Within(ParamPart(d), d)
  {
    hide IsSpace;
    var n := Until(d, '?');
    if n + 1 < |d| {
      var rest := d[n + 1..];
      SpaceInEither(d[..n + 1], rest);
      assert d == d[..n + 1] + rest;
      WordOfSolid(rest);
    }
  }

  lemma WithinSolid(a: string, s: string, d: string)
    requires Within(a, s) && Within(s, d) && a != "" && !HasSpace(d) && Free(d, '%') && Wire(d)
    ensures Solid(a) && Free(a, '%') && Wire(a)
  {
    forall i | 0 <= i < |a| ensures !IsSpace(a[i]) && a[i] != '%' && 0 < a[i] as int < 0x100 {
      var j :| 0 <= j < |s| && s[j] == a[i];
      var k :| 0 <= k < |d| && d[k] == s[j];
    }
  }

  /** Each token before the i-th takes at least a character and a separator. */
  lemma {:induction false} TokenRoom(s: string, c: char, i: nat)
    requires i < |Tokenise(s, c)|
    ensures 2 * i + |Tokenise(s, c)[i]| <= |s|
    decreases |s|
  {
    hide NextToken;
    NextTokenLength(s, c);
    if i > 0 {
      TokenRoom(NextToken(s, c).value.1, c, i - 1);
    }
  }

  lemma ParamPartLength(d: string)
    ensures |ParamPart(d)| <= |d|
  {
  }

  /** Slot m is blank or has a storable name, and what it holds came with a token that fits behind m - 1 others. */
  predicate Kept(slot: Param, m: nat) {
    && (slot.name == "" ==> slot.value == "")
    && (slot.name != "" ==> Storable(slot.name) && 2 * m + |slot.name| <= QUERY_MAX + 2)
    && (slot.value != "" ==> 2 * m + 1 <= QUERY_MAX)
  }

  lemma TokenKept(slot: Param, token: string, m: nat)
    requires Kept(slot, m) && Solid(token) && Wire(token) && Free(token, '%') && Free(token, '&')
    requires SlotFits(Split(token, '='))
    requires 2 * m + |token| <= QUERY_MAX + 2
    ensures Kept(Assign(slot, Split(token, '=')), m)
  {
    hide IsSpace;
    var f := Split(token, '=');
    if f.first.Some? {
      var n := |f.first.value|;
      SpaceInEither(token[..n], token[n..]);
      assert token == token[..n] + token[n..];
    }
    if f.second.Some? {
      FieldsFit(token, '=');
    }
  }

  lemma NotInIsFree(s: string, c: char)
    requires c !in s
    ensures Free(s, c)
  {
  }

  lemma DecodedNotEmpty(q: string)
    requires q != "" && Decodable(q)
    ensures Decode(q) != ""
  {
  }

  lemma TokenWire(s: string)
    requires s != "" && Wire(s) && TokenLength(s) > 0
    ensures 0 < TokenValue(s) as int < 0x100
  {
    hide Recognise;
  }

  lemma {:induction false} DecodedWire(q: string)
    requires Decodable(q) && Wire(q)
    ensures Wire(Decode(q))
    decreases |q|
  {
    hide TokenLength, TokenValue;
    if q != "" {
      DecodedWire(q[TokenLength(q)..]);
      TokenWire(q);
    }
  }

  /** A query's token is one name and value without the characters that have a meaning, and fits. */
  lemma QueryTokens(q: string, i: nat)
    requires Query(q) && i < |Tokenise(ParamPart(Decode(q)), '&')|
    ensures var token := Tokenise(ParamPart(Decode(q)), '&')[i];
            && Solid(token) && Wire(token) && Free(token, '%') && Free(token, '&')
            && SlotFits(Split(token, '=')) && 2 * i + |token| <= QUERY_MAX
  {
    hide Tokenise, ParamPart, Decode, Decodable, Within, HasSpace, SlotFits, Split, Wire;
    var d := Decode(q);
    SpaceStays(q);
    DecodedNotEmpty(q);
    DecodedWire(q);
    DecodedLength(q);
    ParamPartWithin(d);
    ParamPartLength(d);
    TokensWithin(ParamPart(d), '&', i);
    TokenRoom(ParamPart(d), '&', i);
    var token := Tokenise(ParamPart(d), '&')[i];
    WithinSolid(token, ParamPart(d), d);
    NotInIsFree(token, '&');
  }

  lemma BlankKept(m: nat)
    ensures Kept(Param("", ""), m)
  {
  }

  lemma QueryParsable(q: string)
    requires Query(q)
    ensures Parsable(q)
  {
  }

  /** Beyond slot 0 a slot is blank or has a storable name, and what it holds fits into a request. */
  lemma {:induction false} SlotsKept(h: seq<string>, i: nat)
    requires History(h) && 0 < i < TABLE_SIZE
    ensures Kept(TableAfter(h)[i], i)
    decreases |h|
  {
    hide Query, Kept, Tokenise, Split, Assign, Solid, Free, ParamPart, LoginPart, SlotFits;
    if h == [] {
      BlankKept(i);
    } else {
      var q, before := h[|h| - 1], h[..|h| - 1];
      SlotsKept(before, i);
      QueryParsable(q);
      if i <= |Tokenise(ParamPart(Decode(q)), '&')| {
        QueryTokens(q, i - 1);
        TokenKept(TableAfter(before)[i], Tokenise(ParamPart(Decode(q)), '&')[i - 1], i);
      }
    }
  }

  // ------------------------------------------------------------- what is stale

  predicate IsKey(pairs: seq<Param>, k: string) {
    exists i :: 0 <= i < |pairs| && pairs[i].name == k
  }

  /** What a lookup of k after the request returns, if it finds k, does not depend on the requests before it. */
  ghost predicate Settled(u: string, pairs: seq<Param>, k: string)
    requires |pairs| < TABLE_SIZE
  {
    forall h, h' :: History(h) && History(h') ==>
      var t, t' := After(TableAfter(h), u, pairs), After(TableAfter(h'), u, pairs);
      HasName(t, k) && HasName(t', k) ==> Lookup(t, k) == Lookup(t', k)
  }

  /** Some request can leave k, and some a value, in the slot after the first n parameters. */
  predicate Reaches(n: nat, k: string) {
    Storable(k) && 2 * n + |k| <= QUERY_MAX && 2 * n + 3 <= QUERY_MAX
  }

  /** The shortest query that leaves the tail in slot n + 1: n one-character names before it. */
  function Filler(n: nat, tail: string): (q: string)
    ensures |q| == 2 * n + |tail|
    ensures n > 0 ==> q[0] == '?'
  {
    if n == 0 then tail else "?" + ['&'] + Filler(n - 1, tail)
  }

  function FillerTokens(n: nat, tail: string): (tokens: seq<string>)
    ensures |tokens| == n + 1 && tokens[n] == tail
    ensures forall i :: 0 <= i < n ==> tokens[i] == "?"
  {
    if n == 0 then [tail] else ["?"] + FillerTokens(n - 1, tail)
  }

  lemma MarkIsSolid()
    ensures !HasSpace("?" + ['&'])
    ensures SlotFits(Split("?", '='))
  {
  }

  lemma {:induction false} FillerJoins(n: nat, tail: string)
    requires Solid(tail) && Free(tail, '%') && Wire(tail)
    ensures Wire(Filler(n, tail))
    ensures Filler(n, tail) == JoinTokens(FillerTokens(n, tail), '&')
    ensures Solid(Filler(n, tail)) && Free(Filler(n, tail), '%')
  {
    hide IsSpace;
    if n > 0 {
      FillerJoins(n - 1, tail);
      assert FillerTokens(n, tail)[1..] == FillerTokens(n - 1, tail);
      MarkIsSolid();
      SpaceInEither("?" + ['&'], Filler(n - 1, tail));
    }
  }

  lemma TailNotEmpty(tail: string)
    requires Solid(tail)
    ensures tail != ""
  {
  }

  /** It is a query as it stands, it leaves slot 0 alone, and its last token goes into slot n + 1. */
  lemma FillerIsQuery(n: nat, tail: string)
    requires 0 < n && n + 1 < TABLE_SIZE && 2 * n + |tail| <= QUERY_MAX
    requires Solid(tail) && Wire(tail) && Free(tail, '%') && Free(tail, '&') && SlotFits(Split(tail, '='))
    ensures var q := Filler(n, tail);
            && Query(q) && Decode(q) == q && LoginPart(q) == None
            && Tokenise(ParamPart(q), '&') == FillerTokens(n, tail)
  {
    hide Tokenise, Decode, Decodable, Solid, Free, SlotFits, Filler, FillerTokens;
    var q := Filler(n, tail);
    FillerJoins(n, tail);
    MarkIsSolid();
    assert Until(q, '?') == 0;
    FreeIsNotIn(q, '%');
    PlainTextStays(q);
    TailNotEmpty(tail);
    FreeIsNotIn(tail, '&');
    TokeniseJoins(FillerTokens(n, tail), '&');
  }

  /** What the query makes of slot n + 1. */
  lemma FillerFills(table: seq<Param>, n: nat, tail: string)
    requires |table| == TABLE_SIZE && 0 < n && n + 1 < TABLE_SIZE && 2 * n + |tail| <= QUERY_MAX
    requires Solid(tail) && Wire(tail) && Free(tail, '%') && Free(tail, '&') && SlotFits(Split(tail, '='))
    ensures Query(Filler(n, tail))
    ensures FillTable(table, Decode(Filler(n, tail)))[n + 1] == Assign(table[n + 1], Split(tail, '='))
  {
    hide Tokenise, Decode, Decodable, Solid, Free, SlotFits, Filler, Split, Assign, Query;
    FillerIsQuery(n, tail);
    QueryParsable(Filler(n, tail));
  }

  lemma NameAlone(k: string)
    requires Storable(k)
    ensures Split(k, '=') == Fields(Some(k), None) && SlotFits(Split(k, '='))
  {
    UntilUnique(k, '=', |k|);
  }

  lemma NameAndLetter()
    ensures var x := "x" + ['='] + "a"; Solid(x) && Wire(x) && Free(x, '%') && Free(x, '&') && |x| == 3
    ensures Split("x" + ['='] + "a", '=') == Fields(Some("x"), Some("a"))
    ensures SlotFits(Fields(Some("x"), Some("a")))
  {
    SplitJoins("x", '=', "a");
  }

  /** Two histories that leave k in slot n + 1, without a value and with one. */
  lemma StaleSlots(n: nat, k: string) returns (h: seq<string>, h': seq<string>)
    requires 0 < n && Reaches(n, k)
    ensures n + 1 < TABLE_SIZE
    ensures History(h) && TableAfter(h)[n + 1] == Param(k, "")
    ensures History(h') && TableAfter(h')[n + 1] == Param(k, "a")
  {
    hide Solid, Free, FillTable, Query, Decode, Decodable, Parsable, Filler, Split, SlotFits;
    var x := "x" + ['='] + "a";
    NameAlone(k);
    NameAndLetter();
    FillerFills(TableAfter([]), n, k);
    OneMoreQuery([], Filler(n, k));
    h := [] + [Filler(n, k)];
    FillerFills(TableAfter([]), n, x);
    OneMoreQuery([], Filler(n, x));
    h' := [] + [Filler(n, x)];
    FillerFills(TableAfter(h'), n, k);
    OneMoreQuery(h', Filler(n, k));
    QueryParsable(Filler(n, k));
    QueryParsable(Filler(n, x));
    h' := h' + [Filler(n, k)];
  }

  lemma StaleSlotAnswers(table: seq<Param>, u: string, pairs: seq<Param>, k: string)
    requires |table| == TABLE_SIZE && |pairs| + 1 < TABLE_SIZE && k != LOGIN && !IsKey(pairs, k)
    requires table[|pairs| + 1].name == k
    ensures var t := After(table, u, pairs); HasName(t, k) && Lookup(t, k) == table[|pairs| + 1].value
  {
    var n := |pairs| + 1;
    var t := After(table, u, pairs);
    assert t[n] == table[n];
    assert forall j :: 0 < j < n ==> t[j] == pairs[j - 1];
    FindSlotUnique(t, k, 0, n);
  }

  /** A name that no request can leave behind the parameters is not found, or without a value. */
  lemma UnreachedAnswer(h: seq<string>, u: string, pairs: seq<Param>, k: string)
    requires History(h) && |pairs| < TABLE_SIZE && k != LOGIN && !IsKey(pairs, k) && !Reaches(|pairs|, k)
    requires HasName(After(TableAfter(h), u, pairs), k)
    ensures Lookup(After(TableAfter(h), u, pairs), k) == ""
  {
    hide TableAfter, History, Storable;
    var t := After(TableAfter(h), u, pairs);
    var i := FindSlot(t, k, 0);
    assert forall j :: 0 < j <= |pairs| ==> t[j] == pairs[j - 1];
    SlotsKept(h, i);
  }

  /**
   * After a request the answer for a name is independent of all earlier requests exactly when the request
   * carried the name, or no earlier request can leave it with a value behind the parameters of this one.
   */
  lemma SettledIffSent(u: string, pairs: seq<Param>, k: string)
    requires Admissible(u, pairs)
    ensures |pairs| < TABLE_SIZE
    ensures Settled(u, pairs, k) <==> k == LOGIN || IsKey(pairs, k) || !Reaches(|pairs|, k)
  {
    hide After, HasName, Lookup, GoodPair, Solid, Free, TableAfter, History, Reaches;
    if k == LOGIN || IsKey(pairs, k) {
      var i: nat := 0;
      if k != LOGIN {
        i :| i < |pairs| && pairs[i].name == k;
      }
      forall h, h' | History(h) && History(h')
        ensures HasName(After(TableAfter(h), u, pairs), k) && HasName(After(TableAfter(h'), u, pairs), k)
        ensures Lookup(After(TableAfter(h), u, pairs), k) == Lookup(After(TableAfter(h'), u, pairs), k)
      {
        LookupsAfter(TableAfter(h), u, pairs, i);
        LookupsAfter(TableAfter(h'), u, pairs, i);
      }
    } else if !Reaches(|pairs|, k) {
      forall h | History(h) && HasName(After(TableAfter(h), u, pairs), k)
        ensures Lookup(After(TableAfter(h), u, pairs), k) == ""
      {
        UnreachedAnswer(h, u, pairs, k);
      }
    } else {
      var h, h' := StaleSlots(|pairs|, k);
      StaleSlotAnswers(TableAfter(h), u, pairs, k);
      StaleSlotAnswers(TableAfter(h'), u, pairs, k);
    }
  }
}
