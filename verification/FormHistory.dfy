/**
 * Login forms after other requests on the same context: which requests leave a name in
 * slot 0, where it answers for a later form.
 */
module FormHistory {
  import opened Wrappers
  import opened UrlDecode
  import opened Scan
  import opened QueryString
  import opened LoginRequest
  import opened RequestHistory
  import opened LoginForm

  /** The name a query leaves in slot 0, if it touches the name there. */
  function Namer(q: string): Option<string>
    requires Query(q)
  {
    var login := LoginPart(Decode(q));
    if login.Some? then Split(login.value, '=').first else None
  }

  lemma OneMoreNamer(h: seq<string>, q: string)
    requires History(h) && Query(q)
    ensures History(h + [q]) && TableAfter(h + [q])[0].name == Namer(q).GetOr(TableAfter(h)[0].name)
  {
    hide Query, Split, Decode, LoginPart, ParamPart, Tokenise;
    OneMoreQuery(h, q);
    QueryParsable(q);
  }

  /** Some query left one of the names in slot 0 and none after it left another. */
  predicate LastNamed(h: seq<string>, names: set<string>)
    requires History(h)
  {
    exists i :: 0 <= i < |h| && Namer(h[i]).Some? && Namer(h[i]).value in names
                && forall j :: i < j < |h| ==> Namer(h[j]).None?
  }

  lemma LastNamedMore(h: seq<string>, q: string, names: set<string>)
    requires History(h) && Query(q) && History(h + [q])
    ensures LastNamed(h + [q], names) <==> if Namer(q).Some? then Namer(q).value in names else LastNamed(h, names)
  {
    hide Query, Namer;
    var all := h + [q];
    assert all[|h|] == q && forall j :: 0 <= j < |h| ==> all[j] == h[j];
    if Namer(q).None? && LastNamed(h, names) {
      var i :| 0 <= i < |h| && Namer(h[i]).Some? && Namer(h[i]).value in names
               && forall j :: i < j < |h| ==> Namer(h[j]).None?;
      assert Namer(all[i]).Some?;
    }
  }

  lemma NothingNamed(names: set<string>)
    requires "" !in names
    ensures History([]) && TableAfter([])[0].name !in names && !LastNamed([], names)
  {
  }

  /** Slot 0 carries one of the names exactly when the last query that named it did so with one of them. */
  lemma {:induction false} Slot0Named(h: seq<string>, names: set<string>)
    requires History(h) && "" !in names
    ensures TableAfter(h)[0].name in names <==> LastNamed(h, names)
    decreases |h|
  {
    hide Query, Namer, LastNamed, TableAfter;
    if h == [] {
      NothingNamed(names);
    } else {
      var before, q := h[..|h| - 1], h[|h| - 1];
      assert h == before + [q];
      Slot0Named(before, names);
      OneMoreNamer(before, q);
      LastNamedMore(before, q, names);
    }
  }

  /**
   * After any history and an uncut form, a key finds its own value exactly unless the last query that named
   * slot 0 did so with that key and slot 0 holds another value.
   */
  lemma FormAfterHistory(h: seq<string>, form: seq<Param>, i: nat)
    requires History(h) && GoodForm(form) && i < |form|
    ensures HasName(AfterForm(TableAfter(h), form), form[i].name)
    ensures Lookup(AfterForm(TableAfter(h), form), form[i].name) == form[i].value
            <==> !(LastNamed(h, {form[i].name}) && TableAfter(h)[0].value != form[i].value)
  {
    hide GoodForm, AfterForm, HasName, Lookup, TableAfter, LastNamed;
    FormCount(form);
    GoodNotEmpty(form, i);
    FormLookup(TableAfter(h), form, i);
    Slot0Named(h, {form[i].name});
  }

  // ------------------------------------------------------- which requests name it

  lemma PairTextIs(p: Param)
    ensures PairText(p) == p.name + ['='] + p.value
  {
  }

  lemma LoginNamesItself(q: string, u: string, pairs: seq<Param>)
    requires Query(q) && Admissible(u, pairs) && Decode(q) == Serialise(u, pairs)
    ensures Namer(q) == Some(LOGIN)
  {
    hide Split, Tokenise, Serialise, Parsable, PairText;
    SerialisedSplits(u, pairs);
    LoginIsSolid();
    FreeIsNotIn(LOGIN, '=');
    SplitJoins(LOGIN, '=', u);
    assert PairText(Param(LOGIN, u)) == LOGIN + ['='] + u by {
      PairTextIs(Param(LOGIN, u));
    }
  }

  lemma UncutFormNamesNothing(q: string, pairs: seq<Param>)
    requires Query(q) && GoodForm(pairs) && Decode(q) == FormText(pairs) && Uncut(FormText(pairs))
    ensures Namer(q) == None
  {
    hide GoodForm, FormText, Split, LoginPart, Uncut, Parsable;
    FormSolid(pairs);
    UncutIsWhole(FormText(pairs));
  }

  lemma FirstNameFree(pairs: seq<Param>)
    requires GoodForm(pairs)
    ensures pairs[0].name != "" && Free(pairs[0].name, '=')
  {
  }

  lemma FormStarts(pairs: seq<Param>)
    requires GoodForm(pairs)
    ensures var d, n := FormText(pairs), |pairs[0].name|;
            pairs[0].name + ['='] <= d && Until(d, '=') == n
  {
    hide GoodPair;
    var d, n := FormText(pairs), |pairs[0].name|;
    assert PairTexts(pairs)[0] == PairText(pairs[0]);
    assert d[..n + 1] == pairs[0].name + ['='];
    FirstNameFree(pairs);
    UntilUnique(d, '=', n);
  }

  lemma FirstField(s: string, c: char, n: nat)
    requires 0 < n <= |s| && (forall i :: 0 <= i < n ==> s[i] != c) && (n < |s| ==> s[n] == c)
    ensures Split(s, c).first == Some(s[..n])
  {
    hide Word;
    UntilUnique(s, c, n);
    assert s[..|s|] == s;
  }

  /** The first '=' of the part of the form before position m. */
  lemma FirstFieldOfForm(d: string, name: string, m: nat)
    requires name + ['='] <= d && name != "" && Free(name, '=') && 0 < m <= |d|
    ensures Split(d[..m], '=').first == Some(if m < |name| then name[..m] else name)
  {
    hide Split;
    var n := |name|;
    assert forall i :: 0 <= i < n ==> d[i] == name[i];
    assert d[n] == '=';
    if m <= n {
      FirstField(d[..m], '=', m);
      assert d[..m][..m] == name[..m];
    } else {
      FirstField(d[..m], '=', n);
      assert d[..m][..n] == name;
    }
    assert m == n ==> name[..m] == name;
  }

  /** A form that is cut names slot 0 by its first key, or by what comes before a '?' in that key. */
  lemma CutFormNamesFirstKey(q: string, pairs: seq<Param>)
    requires Query(q) && GoodForm(pairs) && Decode(q) == FormText(pairs) && !Uncut(FormText(pairs))
    ensures var n, m := |pairs[0].name|, Until(FormText(pairs), '?');
            Namer(q) == Some(if m < n then pairs[0].name[..m] else pairs[0].name)
  {
    hide GoodForm, FormText, Word, Parsable, Split, Until, LoginPart, Free;
    var d := FormText(pairs);
    FormSolid(pairs);
    UncutIsWhole(d);
    FormStarts(pairs);
    FirstNameFree(pairs);
    FirstFieldOfForm(d, pairs[0].name, Until(d, '?'));
  }

  /** A serialised login request or an uncut form, however it was escaped. */
  ghost predicate WellMeant(q: string) {
    Query(q) &&
      ((exists u, pairs :: Admissible(u, pairs) && Decode(q) == Serialise(u, pairs))
       || (exists pairs :: GoodForm(pairs) && Uncut(FormText(pairs)) && Decode(q) == FormText(pairs)))
  }

  lemma WellMeantNames(q: string)
    requires WellMeant(q)
    ensures Namer(q) == None || Namer(q) == Some(LOGIN)
  {
    hide Admissible, Serialise, GoodForm, Uncut, FormText, Namer, Decode, Decodable, Tokenise;
    if u, pairs :| Admissible(u, pairs) && Decode(q) == Serialise(u, pairs) {
      LoginNamesItself(q, u, pairs);
    } else {
      var pairs :| GoodForm(pairs) && Uncut(FormText(pairs)) && Decode(q) == FormText(pairs);
      UncutFormNamesNothing(q, pairs);
    }
  }

  /** After such requests only, slot 0 stands in the way of no key but loginurl. */
  lemma WellMeantHistory(h: seq<string>)
    requires forall i :: 0 <= i < |h| ==> WellMeant(h[i])
    ensures History(h) && (TableAfter(h)[0].name == "" || TableAfter(h)[0].name == LOGIN)
  {
    hide Query, Namer, TableAfter;
    assert History(h) by {
      forall i | 0 <= i < |h| ensures Query(h[i]) {
        assert WellMeant(h[i]);
      }
    }
    forall i | 0 <= i < |h| ensures Namer(h[i]) == None || Namer(h[i]) == Some(LOGIN) {
      WellMeantNames(h[i]);
    }
    var name := TableAfter(h)[0].name;
    if name != "" {
      Slot0Named(h, {name});
      assert name in {name};
    }
  }

  // ------------------------------------------------------------ a stale answer

  lemma MiddleSolid(d: string, i: nat, j: nat)
    requires Solid(d) && i < j <= |d|
    ensures Solid(d[i..j])
  {
  }

  lemma FirstSlotAnswers(table: seq<Param>, form: seq<Param>)
    requires |table| == TABLE_SIZE && |form| < TABLE_SIZE
    ensures HasName(AfterForm(table, form), table[0].name)
    ensures Lookup(AfterForm(table, form), table[0].name) == table[0].value
  {
    FindSlotUnique(AfterForm(table, form), table[0].name, 0, 0);
  }

  /** A form that is cut behind its first key leaves that key and what follows, up to the '?', in slot 0. */
  lemma CutFormInSlot0(table: seq<Param>, cut: seq<Param>)
    requires |table| == TABLE_SIZE && GoodForm(cut) && ParamsFit(FormText(cut))
    requires |cut[0].name| + 1 < Until(FormText(cut), '?') < |FormText(cut)| - 1
    ensures !Uncut(FormText(cut))
    ensures FillTable(table, FormText(cut))[0]
            == Param(cut[0].name, FormText(cut)[|cut[0].name| + 1..Until(FormText(cut), '?')])
  {
    hide Tokenise, ParamPart, GoodForm, FormText, Word, IsSpace, HasSpace, SlotFits;
    FormCount(cut);
    var d := FormText(cut);
    var n, m := |cut[0].name|, Until(d, '?');
    FormSolid(cut);
    UncutIsWhole(d);
    FormStarts(cut);
    FirstNameFree(cut);
    var login, rest := d[..m], d[n + 1..m];
    UntilUnique(login, '=', n);
    assert login[..n] == cut[0].name && login[n + 1..] == rest;
    MiddleSolid(d, n + 1, m);
    WordOfSolid(rest);
  }

  lemma ParamsFitCount(d: string)
    requires ParamsFit(d)
    ensures |Tokenise(ParamPart(d), '&')| < TABLE_SIZE
  {
  }

  /** After a cut form the next form's own value for the first key is hidden by the earlier client's text. */
  lemma CutFormAnswersForNext(table: seq<Param>, cut: seq<Param>, form: seq<Param>, i: nat)
    requires |table| == TABLE_SIZE && GoodForm(cut) && GoodForm(form) && i < |form| && form[i].name == cut[0].name
    requires ParamsFit(FormText(cut))
    requires |cut[0].name| + 1 < Until(FormText(cut), '?') < |FormText(cut)| - 1
    ensures !Uncut(FormText(cut))
    ensures var t := AfterForm(FillTable(table, FormText(cut)), form);
            && HasName(t, form[i].name)
            && Lookup(t, form[i].name) == FormText(cut)[|cut[0].name| + 1..Until(FormText(cut), '?')]
  {
    hide ParamsFit, GoodForm, FormText, AfterForm, FillTable, Uncut, HasName, Lookup;
    FormCount(form);
    ParamsFitCount(FormText(cut));
    CutFormInSlot0(table, cut);
    FirstSlotAnswers(FillTable(table, FormText(cut)), form);
  }

  lemma FormOfTwo(p: Param, q: Param)
    requires GoodPair(p) && GoodPair(q) && p.name != q.name
    ensures GoodForm([p, q]) && FormText([p, q]) == PairText(p) + ['&'] + PairText(q)
  {
    hide GoodPair, PairText;
    var texts := PairTexts([p, q]);
    assert texts == [PairText(p), PairText(q)] && texts[1..] == [PairText(q)];
    assert JoinTokens(texts[1..], '&') == PairText(q);
    assert JoinTokens(texts, '&') == texts[0] + ['&'] + JoinTokens(texts[1..], '&');
  }

  /** What follows the first '?' is cut into parameters. */
  lemma CutAt(a: string, b: string)
    requires a != "" && Free(a, '?') && Solid(b)
    ensures Until(a + ['?'] + b, '?') == |a| && ParamPart(a + ['?'] + b) == b
    ensures LoginPart(a + ['?'] + b) == Some(a)
  {
    hide HasSpace;
    var d := a + ['?'] + b;
    UntilUnique(d, '?', |a|);
    assert d[..|a|] == a && d[|a| + 1..] == b;
    WordOfSolid(b);
  }

  /** Characters beyond '&' other than '=' and '?' have no meaning in a request. */
  predicate Tame(s: string) {
    0 < |s| < FIELD_SIZE && Wire(s) && forall i :: 0 <= i < |s| ==> '&' < s[i] && s[i] != '=' && s[i] != '?'
  }

  lemma TamePair(p: Param, host: string, tail: string)
    requires Tame(p.name) && Tame(host) && Tame(tail)
    requires p.value == host + ['?'] + tail && |p.value| < FIELD_SIZE
    ensures GoodPair(p) && Free(PairText(p), '%') && Solid(tail) && Free(tail, '&') && Wire(PairText(p))
    ensures Free(PairText(Param(p.name, host)), '?')
  {
  }

  lemma TamerPair(p: Param)
    requires Tame(p.name) && Tame(p.value)
    ensures GoodPair(p) && Free(PairText(p), '%') && Free(PairText(p), '?') && Wire(PairText(p))
  {
  }

  lemma AddressRegroups(first: string, name: string, value: string, host: string, tail: string)
    requires value == host + ['?'] + tail
    ensures first + ['&'] + (name + ['='] + value) == (first + ['&'] + (name + ['='] + host)) + ['?'] + tail
  {
  }

  lemma TameParts(s: string)
    requires Tame(s)
    ensures 0 < |s| < FIELD_SIZE && Free(s, '&') && Free(s, '=')
  {
  }

  /** What stands before the '?' names the first key and takes the rest for its value. */
  lemma LoginOfAddress(p: Param, name: string, host: string)
    requires Tame(p.name) && Tame(p.value) && Tame(name) && Tame(host)
    requires |p.value| + |PairText(Param(name, host))| + 1 < FIELD_SIZE
    ensures SlotFits(Split(PairText(p) + ['&'] + PairText(Param(name, host)), '='))
  {
    hide Word;
    var a := PairText(p) + ['&'] + PairText(Param(name, host));
    UntilUnique(a, '=', |p.name|);
    WordLength(a[|p.name| + 1..]);
  }

  lemma ValueAndRest(d: string, p: Param, rest: string, tail: string)
    requires d == (PairText(p) + ['&'] + rest) + ['?'] + tail
    ensures d[|p.name| + 1..|PairText(p) + ['&'] + rest|] == p.value + ['&'] + rest
  {
  }

  lemma OneTokenFits(d: string, tail: string)
    requires tail != "" && Free(tail, '&') && Free(tail, '=') && |tail| < FIELD_SIZE && ParamPart(d) == tail
    requires LoginPart(d).Some? && SlotFits(Split(LoginPart(d).value, '='))
    ensures ParamsFit(d) && Tokenise(ParamPart(d), '&') != []
  {
    hide Tokenise, ParamPart, LoginPart;
    assert JoinTokens([tail], '&') == tail;
    TokeniseJoins([tail], '&');
    UntilUnique(tail, '=', |tail|);
  }

  /** A form whose second value is an address with a query of its own is cut there. */
  lemma AddressCuts(p: Param, q: Param, host: string, tail: string)
    requires Tame(p.name) && Tame(p.value) && Tame(q.name) && Tame(host) && Tame(tail)
    requires p.name != q.name && q.value == host + ['?'] + tail && |q.value| < FIELD_SIZE
    requires |p.value| + |PairText(Param(q.name, host))| + 1 < FIELD_SIZE
    ensures GoodForm([p, q]) && Free(FormText([p, q]), '%') && ParamsFit(FormText([p, q]))
    ensures Tokenise(ParamPart(FormText([p, q])), '&') != []
    ensures var a := PairText(p) + ['&'] + PairText(Param(q.name, host));
            FormText([p, q]) == a + ['?'] + tail && Until(FormText([p, q]), '?') == |a|
  {
    hide Tame, FormText, GoodForm, GoodPair, Tokenise, Solid, ParamPart, LoginPart, Until, SlotFits, Split, ParamsFit;
    var a := PairText(p) + ['&'] + PairText(Param(q.name, host));
    TamerPair(p);
    TamePair(q, host, tail);
    FormOfTwo(p, q);
    TameParts(tail);
    AddressRegroups(PairText(p), q.name, q.value, host, tail);
    CutAt(a, tail);
    LoginOfAddress(p, q.name, host);
    OneTokenFits(a + ['?'] + tail, tail);
  }

  /** A form of plain texts that fits is a query as it stands. */
  lemma TameForm(p: Param, q: Param)
    requires Tame(p.name) && Tame(p.value) && Tame(q.name) && Tame(q.value) && p.name != q.name
    requires |FormText([p, q])| <= QUERY_MAX
    ensures GoodForm([p, q]) && Uncut(FormText([p, q]))
    ensures Query(FormText([p, q])) && Decode(FormText([p, q])) == FormText([p, q])
  {
    hide Tame, GoodForm, GoodPair, Tokenise, Solid, ParamPart, PairText, Decode, Decodable, Parsable;
    TamerPair(p);
    TamerPair(q);
    FormOfTwo(p, q);
    var d := FormText([p, q]);
    assert Free(d, '?') && Free(d, '%') && Wire(d);
    UntilUnique(d, '?', |d|);
    FormSolid([p, q]);
    FreeIsNotIn(d, '%');
    PlainTextStays(d);
    FormParsable(d, [p, q]);
  }

  lemma QueryFits(q: string)
    requires Query(q)
    ensures ParamsFit(Decode(q))
  {
  }

  /**
   * After any history and a form that is cut behind its first key, every client with a complete form that has
   * that key is taken for the text of the client before, however both were escaped.
   */
  lemma NextClientMistaken(h: seq<string>, q: string, q': string, cut: seq<Param>, form: seq<Param>, i: nat)
    requires History(h) && Query(q) && Query(q') && Decode(q) == FormText(cut) && Decode(q') == FormText(form)
    requires GoodForm(cut) && GoodForm(form) && Uncut(FormText(form)) && i < |form| && form[i].name == cut[0].name
    requires |cut[0].name| + 1 < Until(FormText(cut), '?') < |FormText(cut)| - 1
    ensures History(h + [q] + [q']) && !Uncut(FormText(cut)) && HasName(TableAfter(h + [q] + [q']), form[i].name)
    ensures Lookup(TableAfter(h + [q] + [q']), form[i].name)
            == FormText(cut)[|cut[0].name| + 1..Until(FormText(cut), '?')]
  {
    hide GoodForm, FormText, Query, Tokenise, ParamPart, FillTable, AfterForm, HasName, Lookup, TableAfter, Uncut,
      Until, Decode, Decodable;
    OneMoreQuery(h, q);
    OneMoreQuery(h + [q], q');
    QueryFits(q);
    FormFilled(TableAfter(h + [q]), form);
    CutFormAnswersForNext(TableAfter(h), cut, form, i);
  }

  const EVE: Param := Param("username", "eve")

  const ADDRESS: Param := Param("userurl", "http://a" + ['?'] + "b")

  const BOB: Param := Param("username", "bob")

  const PLAIN: Param := Param("userurl", "http://c")

  lemma EveIsTame()
    ensures Tame(EVE.name) && Tame(EVE.value) && Tame(ADDRESS.name) && Tame("http://a") && Tame("b")
  {
  }

  lemma BobIsTame()
    ensures Tame(BOB.name) && Tame(BOB.value) && Tame(PLAIN.name) && Tame(PLAIN.value)
  {
  }

  lemma JoinedWire(a: string, b: string)
    requires Wire(a) && Wire(b)
    ensures Wire(a + ['&'] + b)
  {
  }

  lemma AddressIsQuery(p: Param, q: Param, host: string, tail: string)
    requires Tame(p.name) && Tame(p.value) && Tame(q.name) && Tame(host) && Tame(tail)
    requires p.name != q.name && q.value == host + ['?'] + tail && |q.value| < FIELD_SIZE
    requires |p.value| + |PairText(Param(q.name, host))| + 1 < FIELD_SIZE
    requires |PairText(p)| + 1 + |PairText(q)| <= QUERY_MAX
    ensures var d := FormText([p, q]);
            && GoodForm([p, q]) && Query(d) && Decode(d) == d
            && |p.name| + 1 < Until(d, '?') < |d| - 1
            && d[|p.name| + 1..Until(d, '?')] == p.value + ['&'] + PairText(Param(q.name, host))
  {
    hide FormText, GoodForm, Tokenise, ParamPart, ParamsFit, Until, Solid, Free, Decode, Decodable, Tame, GoodPair,
      Wire;
    var d := FormText([p, q]);
    AddressCuts(p, q, host, tail);
    TameParts(tail);
    TameParts(p.value);
    TamePair(q, host, tail);
    TamerPair(p);
    FormOfTwo(p, q);
    JoinedWire(PairText(p), PairText(q));
    FormSolid([p, q]);
    FreeIsNotIn(d, '%');
    PlainTextStays(d);
    ValueAndRest(d, p, PairText(Param(q.name, host)), tail);
  }

  /** Such clients exist: an address with a query of its own is enough. */
  lemma EveAnswersForBob()
    ensures var eve, bob := FormText([EVE, ADDRESS]), FormText([BOB, PLAIN]);
            && GoodForm([EVE, ADDRESS]) && !Uncut(eve)
            && History([] + [eve] + [bob]) && HasName(TableAfter([] + [eve] + [bob]), "username")
            && Lookup(TableAfter([] + [eve] + [bob]), "username")
               == "eve" + ['&'] + ("userurl" + ['='] + "http://a")
  {
    hide GoodForm, FormText, Query, TableAfter, Uncut, HasName, Lookup, Until, Decode, Decodable, Tame;
    EveIsTame();
    BobIsTame();
    assert |FormText([BOB, PLAIN])| <= QUERY_MAX by {
      TamerPair(BOB);
      TamerPair(PLAIN);
      FormOfTwo(BOB, PLAIN);
    }
    AddressIsQuery(EVE, ADDRESS, "http://a", "b");
    TameForm(BOB, PLAIN);
    NextClientMistaken([], FormText([EVE, ADDRESS]), FormText([BOB, PLAIN]), [EVE, ADDRESS], [BOB, PLAIN], 0);
  }
}
