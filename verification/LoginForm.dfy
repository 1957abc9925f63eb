/**
 * The login form, from the request line to the hidden password.  The form is sent
 * without a login address, so its parameters are kept exactly when no '?' cuts the
 * decoded query string in two.
 */
module LoginForm {
  import opened UrlDecode
  import opened Scan
  import opened QueryString
  import opened LoginRequest
  import opened RequestHistory
  import Words
  import Hex
  import Pap
  import Rfc1321

  function FormText(pairs: seq<Param>): string {
    JoinTokens(PairTexts(pairs), '&')
  }

  predicate GoodForm(pairs: seq<Param>) {
    && 0 < |pairs| < TABLE_SIZE
    && (forall i :: 0 <= i < |pairs| ==> GoodPair(pairs[i]))
    && (forall i, j :: 0 <= i < j < |pairs| ==> pairs[i].name != pairs[j].name)
  }

  /** The text has no '?', or only at its start or its end first. */
  predicate Uncut(d: string) {
    Until(d, '?') == 0 || Until(d, '?') + 1 >= |d|
  }

  lemma UncutIsWhole(d: string)
    requires Solid(d)
    ensures LoginPart(d).None? <==> Uncut(d)
    ensures Uncut(d) ==> ParamPart(d) == d
    ensures !Uncut(d) ==> LoginPart(d).value == d[..Until(d, '?')]
  {
    hide IsSpace;
    var n := Until(d, '?');
    if !Uncut(d) {
      var rest := d[n + 1..];
      assert d == d[..n + 1] + rest;
      SpaceInEither(d[..n + 1], rest);
      WordOfSolid(rest);
    }
  }

  lemma FormSolid(pairs: seq<Param>)
    requires GoodForm(pairs)
    ensures Solid(FormText(pairs)) && FormText(pairs)[0] != '='
    ensures Tokenise(FormText(pairs), '&') == PairTexts(pairs)
  {
    hide Tokenise, HasSpace, IsSpace;
    var texts := PairTexts(pairs);
    forall i | 0 <= i < |pairs| ensures Solid(texts[i]) && '&' !in texts[i] {
      PairTextSolid(pairs[i]);
      PairTextFree(pairs[i], '&');
      FreeIsNotIn(texts[i], '&');
    }
    NoSpace('&');
    JoinSolid(texts, '&');
    TokeniseJoins(texts, '&');
    assert texts[0][0] == pairs[0].name[0];
  }

  /** Slot 0 stays, the pairs follow in order, later slots stay. */
  function AfterForm(table: seq<Param>, pairs: seq<Param>): (r: seq<Param>)
    requires |table| == TABLE_SIZE && |pairs| < TABLE_SIZE
    ensures |r| == TABLE_SIZE
  {
    [table[0]] + pairs + table[|pairs| + 1..]
  }

  lemma FormCount(pairs: seq<Param>)
    requires GoodForm(pairs)
    ensures 0 < |pairs| < TABLE_SIZE
  {
  }

  lemma FormFilled(table: seq<Param>, pairs: seq<Param>)
    requires |table| == TABLE_SIZE && GoodForm(pairs) && Uncut(FormText(pairs))
    ensures |Tokenise(ParamPart(FormText(pairs)), '&')| == |pairs|
    ensures FillTable(table, FormText(pairs)) == AfterForm(table, pairs)
  {
    hide Split, Tokenise, LoginPart, ParamPart, Assign, FormText, PairText, Solid, Free, Uncut;
    FormSolid(pairs);
    UncutIsWhole(FormText(pairs));
    var r := FillTable(table, FormText(pairs));
    forall i | 0 < i <= |pairs| ensures r[i] == pairs[i - 1] {
      PairFillsSlot(table[i], pairs[i - 1]);
    }
  }

  lemma ParsableFits(query: string)
    requires Parsable(query)
    ensures ParamsFit(Decode(query))
  {
  }

  /** A query string that decodes to an uncut form can be parsed. */
  lemma FormParsable(query: string, pairs: seq<Param>)
    requires Decodable(query) && |query| < QS_SIZE && GoodForm(pairs) && Uncut(FormText(pairs))
    requires Decode(query) == FormText(pairs)
    ensures Parsable(query) && ParamsFit(FormText(pairs))
  {
    hide Decode, Decodable, Tokenise, LoginPart, ParamPart, Split, SlotFits, FormText, Solid, Uncut, GoodPair,
      ParamsFit;
    FormSolid(pairs);
    UncutIsWhole(FormText(pairs));
    PairsParsable(query, pairs);
    ParsableFits(query);
  }

  lemma UncutFits(pairs: seq<Param>)
    requires GoodForm(pairs) && Uncut(FormText(pairs))
    ensures ParamsFit(FormText(pairs))
  {
    hide Tokenise, LoginPart, ParamPart, Split, SlotFits, FormText, Solid, Free, Uncut, PairText;
    FormSolid(pairs);
    UncutIsWhole(FormText(pairs));
    forall i | 0 <= i < |pairs| ensures SlotFits(Split(PairTexts(pairs)[i], '=')) {
      PairSlotFits(pairs[i]);
    }
  }

  predicate Slots1ToN(table: seq<Param>, pairs: seq<Param>) {
    |pairs| < |table| && table[1..|pairs| + 1] == pairs
  }

  /** Parsing the form into the table stays inside the slots and leaves its parameters in slots 1 to n. */
  predicate Fills(table: seq<Param>, pairs: seq<Param>)
    requires |table| == TABLE_SIZE
  {
    ParamsFit(FormText(pairs)) && Slots1ToN(FillTable(table, FormText(pairs)), pairs)
  }

  /** What a token left in a blank slot is at most as long as the token. */
  lemma TokenHolds(token: string, p: Param)
    requires Assign(Param("", ""), Split(token, '=')) == p && p.name != "" && p.value != ""
    ensures |PairText(p)| <= |token|
  {
    hide Split;
    FieldsFit(token, '=');
  }

  lemma GoodNotEmpty(pairs: seq<Param>, i: nat)
    requires GoodForm(pairs) && i < |pairs|
    ensures pairs[i].name != "" && pairs[i].value != ""
  {
  }

  /** To fill slots 1 to n of a blank table, what is cut into parameters has to be as long as the form. */
  lemma FilledIsLong(pairs: seq<Param>)
    requires GoodForm(pairs) && Fills(Blank(), pairs)
    ensures |FormText(pairs)| <= |ParamPart(FormText(pairs))|
  {
    hide Tokenise, ParamPart, LoginPart, GoodForm, Split, Assign, PairText, JoinTokens, SlotFits;
    var text := ParamPart(FormText(pairs));
    var tokens := Tokenise(text, '&');
    var r := FillTable(Blank(), FormText(pairs));
    FormCount(pairs);
    GoodNotEmpty(pairs, |pairs| - 1);
    assert r[|pairs|] == r[1..|pairs| + 1][|pairs| - 1] == pairs[|pairs| - 1];
    assert |pairs| <= |tokens|;
    forall i | 0 <= i < |pairs| ensures |PairTexts(pairs)[i]| <= |tokens[i]| {
      GoodNotEmpty(pairs, i);
      assert r[i + 1] == r[1..|pairs| + 1][i] == pairs[i];
      TokenHolds(tokens[i], pairs[i]);
    }
    JoinGrows(PairTexts(pairs), tokens, '&');
    TokensFit(text, '&');
  }

  lemma CutIsShorter(d: string)
    requires Solid(d) && !Uncut(d)
    ensures |ParamPart(d)| < |d|
  {
    hide Word, IsSpace;
    var n := Until(d, '?');
    assert d == d[..n + 1] + d[n + 1..];
    SpaceInEither(d[..n + 1], d[n + 1..]);
    WordOfSolid(d[n + 1..]);
  }

  /**
   * The form's parameters fill slots 1 to n of every table exactly when the form is uncut; a form that is cut
   * does not even fill a blank table.
   */
  lemma FilledIffUncut(pairs: seq<Param>)
    requires GoodForm(pairs)
    ensures Fills(Blank(), pairs) <==> Uncut(FormText(pairs))
    ensures (forall t :: |t| == TABLE_SIZE ==> Fills(t, pairs)) <==> Uncut(FormText(pairs))
  {
    hide Tokenise, ParamPart, Uncut, GoodForm, FormText, FillTable, ParamsFit;
    FormCount(pairs);
    if Uncut(FormText(pairs)) {
      forall t | |t| == TABLE_SIZE ensures Fills(t, pairs) {
        UncutFits(pairs);
        FormFilled(t, pairs);
        assert AfterForm(t, pairs)[1..|pairs| + 1] == pairs;
      }
    } else {
      FormSolid(pairs);
      CutIsShorter(FormText(pairs));
      if Fills(Blank(), pairs) {
        FilledIsLong(pairs);
      }
    }
  }

  /** A key of the form finds its own value unless slot 0 kept the same name with another value. */
  lemma FormLookup(table: seq<Param>, pairs: seq<Param>, i: nat)
    requires |table| == TABLE_SIZE && GoodForm(pairs) && i < |pairs|
    ensures HasName(AfterForm(table, pairs), pairs[i].name)
    ensures Lookup(AfterForm(table, pairs), pairs[i].name) == pairs[i].value
            <==> table[0].name != pairs[i].name || table[0].value == pairs[i].value
  {
    hide GoodPair;
    var t := AfterForm(table, pairs);
    assert forall j :: 0 < j <= |pairs| ==> t[j] == pairs[j - 1];
    FindSlotUnique(t, pairs[i].name, 0, if table[0].name == pairs[i].name then 0 else i + 1);
  }

  // ------------------------------------------------------------------ the answer

  predicate Narrow(s: string) {
    forall i :: 0 <= i < |s| ==> s[i] as int < 0x100
  }

  /** A text as the bytes of its characters. */
  function Octets(s: string): (b: seq<Words.Byte>)
    requires Narrow(s)
    ensures |b| == |s|
  {
    seq(|s|, i requires 0 <= i < |s| => Words.ByteOf(s[i] as int))
  }

  /** Texts the answer can work with: the source's buffers and the 128-byte limit on passwords. */
  predicate Usable(password: string, challenge: string) {
    && Narrow(password) && |password| <= Pap.RADIUS_PWSIZE
    && Narrow(challenge) && 2 * Pap.MD5LEN <= |challenge| < FIELD_SIZE
  }

  /** The hidden password is in the buffer: whoever has the digest reads the password from it. */
  ghost predicate Discloses(buffer: seq<Words.Byte>, password: seq<Words.Byte>, digest: seq<Words.Byte>)
    requires |digest| == 16
  {
    var n := |password|;
    && 2 * n < |buffer| && buffer[2 * n] == 0
    && (forall j: nat :: j < 2 * n ==> Hex.IsLowerHexDigit(buffer[j]))
    && Hex.Converted(buffer[..2 * n], n) == n
    && Pap.Hide(Hex.Unhex(buffer[..2 * n], n), digest) == password
  }

  predicate HexChallenge(challenge: seq<Words.Byte>) {
    2 * Pap.MD5LEN <= |challenge| && forall j :: 0 <= j < 2 * Pap.MD5LEN ==> Hex.IsHexDigit(challenge[j])
  }

  function PlainDigest(challenge: seq<Words.Byte>, secret: seq<Words.Byte>): (d: seq<Words.Byte>)
    requires HexChallenge(challenge)
    ensures |d| == 16
  {
    Hex.DigitsConvert(challenge, Pap.MD5LEN);
    Rfc1321.Digest(Hex.Unhex(challenge, Pap.MD5LEN) + secret)
  }

  predicate Answerable(table: seq<Param>) {
    && HasName(table, "username") && HasName(table, "password")
    && HasName(table, "userurl") && HasName(table, "challenge")
    && |Lookup(table, "username")| < FIELD_SIZE && |Lookup(table, "userurl")| < FIELD_SIZE
    && Usable(Lookup(table, "password"), Lookup(table, "challenge"))
  }

  /** The text that the hidden password is printed as, for the password and challenge the table holds. */
  function Hidden(table: seq<Param>, secret: seq<Words.Byte>): (printed: seq<Words.Byte>)
    requires Answerable(table)
  {
    Hex.ToHex(Pap.Hide(Octets(Lookup(table, "password")), Pap.HidingDigest(Octets(Lookup(table, "challenge")), secret)))
  }

  lemma HiddenDiscloses(table: seq<Param>, secret: seq<Words.Byte>)
    requires Answerable(table) && HexChallenge(Octets(Lookup(table, "challenge")))
    ensures Discloses(Hidden(table, secret) + [0], Octets(Lookup(table, "password")),
                      PlainDigest(Octets(Lookup(table, "challenge")), secret))
  {
    hide Hex.Converted, Hex.Unhex, Hex.ToHex, Hex.IsHexDigit, Hex.IsLowerHexDigit, Pap.Hide, Pap.HidingDigest,
      Rfc1321.Digest, HasName, Lookup, Octets;
    var password, challenge := Octets(Lookup(table, "password")), Octets(Lookup(table, "challenge"));
    Pap.PasswordRecovered(password, secret, challenge);
    assert (Hidden(table, secret) + [0])[..2 * |password|] == Hidden(table, secret);
  }

  /** Looks the parameters of a login up and hides the password; the result is a C string in the buffer. */
  method HidePassword(ctx: HttpContext, order: Words.ByteOrder, secret: seq<Words.Byte>)
    returns (username: string, userurl: string, buffer: array<Words.Byte>)
    requires ctx.Shape() && |secret| < Rfc1321.TWO_TO_64 && Answerable(ctx.paramList[..])
    ensures username == Lookup(ctx.paramList[..], "username") && userurl == Lookup(ctx.paramList[..], "userurl")
    ensures fresh(buffer) && buffer.Length == Pap.BUFFER_SIZE
    ensures Hidden(ctx.paramList[..], secret) + [0] <= buffer[..]
  {
    hide Hex.ToHex, Pap.Hide, Pap.HidingDigest, HasName, Lookup, Octets;
    username := ctx.GetParamValue("username");
    var password := ctx.GetParamValue("password");
    userurl := ctx.GetParamValue("userurl");
    var challenge := ctx.GetParamValue("challenge");
    var text := Octets(challenge);
    var copy := new Words.Byte[|text|](i requires 0 <= i < |text| => text[i]);
    assert copy[..|text|] == text;
    buffer := Pap.EncodePapPassword(order, Octets(password), secret, copy, |text|);
    assert buffer[..][..2 * |password| + 1] == buffer[..2 * |password| + 1];
  }

  predicate Carries(pairs: seq<Param>, name: string, value: string) {
    exists i :: 0 <= i < |pairs| && pairs[i] == Param(name, value)
  }

  /** A slot 0 that does not answer for the name with another value. */
  predicate Shows(slot0: Param, name: string, value: string) {
    slot0.name != name || slot0.value == value
  }

  lemma CarriedIsFound(table: seq<Param>, pairs: seq<Param>, name: string, value: string)
    requires |table| == TABLE_SIZE && GoodForm(pairs) && Carries(pairs, name, value)
    ensures |value| < FIELD_SIZE
    ensures |pairs| < TABLE_SIZE && HasName(AfterForm(table, pairs), name)
    ensures Lookup(AfterForm(table, pairs), name) == value <==> Shows(table[0], name, value)
  {
    hide AfterForm, HasName, Lookup;
    var i: nat :| i < |pairs| && pairs[i] == Param(name, value);
    assert GoodPair(pairs[i]);
    FormCount(pairs);
    FormLookup(table, pairs, i);
  }

  /** However the form is escaped, the context holds the page and the form's parameters in slots 1 to n. */
  lemma FormProcessed(h: HttpState, verb: string, page: string, pairs: seq<Param>, pieces: seq<string>,
                      proto: string, headers: string, tmp: string)
    requires IsLoginPage(page) && GoodRequest(verb, Asks(page, Joined(pieces)), proto, headers) && InBuffer(tmp)
    requires GoodForm(pairs) && Uncut(FormText(pairs)) && Encodes(pieces, FormText(pairs))
    ensures |pairs| < TABLE_SIZE
    ensures var request := RequestText(verb, Asks(page, Joined(pieces)), proto, headers);
            && Finishes(h, request, tmp)
            && var r := Processed(h, request, tmp);
               r.verb == verb && r.resource == page && r.count == |pairs| && r.table == AfterForm(h.table, pairs)
  {
    hide GoodForm, Encodes, FormText, Uncut, Solid, Free, Scanned, Decode, Decodable, Tokenise, FillTable, AfterForm,
      ParamPart, IsLoginPage, RequestText, GoodRequest, Asks, Split, LineFits, HeadersFit, Parsable, InBuffer;
    FormCount(pairs);
    FormSolid(pairs);
    EncodedSolid(pieces, FormText(pairs));
    PageIsSolid(page);
    AsksSplits(page, Joined(pieces));
    AsksLength(verb, page, Joined(pieces), proto, headers);
    TargetScanned(h, verb, Asks(page, Joined(pieces)), proto, headers, tmp);
    FormParsable(Joined(pieces), pairs);
    FormFilled(h.table, pairs);
  }

  /** A context that receives the form is left so. */
  method ServeForm(ctx: HttpContext, verb: string, page: string, pairs: seq<Param>, pieces: seq<string>,
                   proto: string, headers: string)
    requires ctx.Shape() && IsLoginPage(page) && GoodRequest(verb, Asks(page, Joined(pieces)), proto, headers)
    requires GoodForm(pairs) && Uncut(FormText(pairs)) && Encodes(pieces, FormText(pairs))
    modifies ctx, ctx.paramList
    ensures ctx.requestMethod == verb && ctx.resourceName == page && ctx.maxQsParamListNum == |pairs|
    ensures ctx.paramList[..] == AfterForm(old(ctx.paramList[..]), pairs)
  {
    hide GoodForm, Encodes, FormText, Uncut, Finishes, Processed, AfterForm, IsLoginPage, RequestText, GoodRequest,
      Asks, InBuffer;
    ghost var before := ctx.State();
    var request := RequestText(verb, Asks(page, Joined(pieces)), proto, headers);
    forall tmp | InBuffer(tmp) ensures Finishes(before, request, tmp) {
      FormProcessed(before, verb, page, pairs, pieces, proto, headers, tmp);
    }
    ghost var tmp := ctx.ProcessRequest(request);
    assert InBuffer(tmp) by { FinishesInBuffer(before, request, tmp); }
    FormProcessed(before, verb, page, pairs, pieces, proto, headers, tmp);
    assert ctx.State().table == AfterForm(before.table, pairs);
  }

  /** What a client types and sends along. */
  datatype Login = Login(username: string, password: string, userurl: string, challenge: string)

  /** The four parameters of a login are in the form, and the answer can work with them. */
  predicate CarriesLogin(pairs: seq<Param>, login: Login) {
    && GoodForm(pairs)
    && Carries(pairs, "username", login.username) && Carries(pairs, "password", login.password)
    && Carries(pairs, "userurl", login.userurl) && Carries(pairs, "challenge", login.challenge)
    && Usable(login.password, login.challenge) && HexChallenge(Octets(login.challenge))
  }

  /** Slot 0 stands in the way of none of the four. */
  predicate ShowsLogin(slot0: Param, login: Login) {
    && Shows(slot0, "username", login.username) && Shows(slot0, "password", login.password)
    && Shows(slot0, "userurl", login.userurl) && Shows(slot0, "challenge", login.challenge)
  }

  /** The four lookups return what was sent. */
  predicate FindsLogin(table: seq<Param>, login: Login) {
    && HasName(table, "username") && Lookup(table, "username") == login.username
    && HasName(table, "password") && Lookup(table, "password") == login.password
    && HasName(table, "userurl") && Lookup(table, "userurl") == login.userurl
    && HasName(table, "challenge") && Lookup(table, "challenge") == login.challenge
  }

  /** The answer can be made, and it hides the password that was typed. */
  ghost predicate HidesLogin(table: seq<Param>, secret: seq<Words.Byte>, login: Login) {
    && Narrow(login.password) && Narrow(login.challenge) && HexChallenge(Octets(login.challenge)) && Answerable(table)
    && Discloses(Hidden(table, secret) + [0], Octets(login.password), PlainDigest(Octets(login.challenge), secret))
  }

  /**
   * Over any table the lookups return what was sent exactly when slot 0 does not stand in their way, and then
   * the answer hides the password that was typed.
   */
  lemma FormAnswered(table: seq<Param>, pairs: seq<Param>, secret: seq<Words.Byte>, login: Login)
    requires |table| == TABLE_SIZE && CarriesLogin(pairs, login)
    ensures |pairs| < TABLE_SIZE
    ensures FindsLogin(AfterForm(table, pairs), login) <==> ShowsLogin(table[0], login)
    ensures ShowsLogin(table[0], login) ==> HidesLogin(AfterForm(table, pairs), secret, login)
  {
    hide GoodForm, AfterForm, Carries, Shows, HasName, Lookup, Octets, HexChallenge, Discloses, PlainDigest, Hidden;
    CarriedIsFound(table, pairs, "username", login.username);
    CarriedIsFound(table, pairs, "password", login.password);
    CarriedIsFound(table, pairs, "userurl", login.userurl);
    CarriedIsFound(table, pairs, "challenge", login.challenge);
    if ShowsLogin(table[0], login) {
      HiddenDiscloses(AfterForm(table, pairs), secret);
    }
  }

  lemma DisclosesMore(text: seq<Words.Byte>, buffer: seq<Words.Byte>, password: seq<Words.Byte>,
                      digest: seq<Words.Byte>)
    requires |digest| == 16 && text <= buffer && Discloses(text, password, digest)
    ensures Discloses(buffer, password, digest)
  {
    hide Hex.Converted, Hex.Unhex, Hex.IsLowerHexDigit, Pap.Hide;
    assert buffer[..2 * |password|] == text[..2 * |password|];
  }

  /**
   * The whole login on one context: the form arrives escaped, and the answer hides the password that was typed,
   * under the digest of the challenge that was sent and the secret.
   */
  method AnswerForm(ctx: HttpContext, order: Words.ByteOrder, secret: seq<Words.Byte>, verb: string,
                    pairs: seq<Param>, pieces: seq<string>, proto: string, headers: string, ghost login: Login)
    returns (username: string, userurl: string, buffer: array<Words.Byte>)
    requires ctx.Shape() && |secret| < Rfc1321.TWO_TO_64
    requires GoodRequest(verb, Asks("/login_response.html", Joined(pieces)), proto, headers)
    requires Uncut(FormText(pairs)) && Encodes(pieces, FormText(pairs))
    requires CarriesLogin(pairs, login) && ShowsLogin(ctx.paramList[0], login)
    modifies ctx, ctx.paramList
    ensures username == login.username && userurl == login.userurl
    ensures Discloses(buffer[..], Octets(login.password), PlainDigest(Octets(login.challenge), secret))
  {
    hide GoodForm, Encodes, FormText, Uncut, GoodRequest, AfterForm, Carries, Shows, HasName, Lookup, Usable, Octets,
      HexChallenge, Discloses, PlainDigest, Hidden, Answerable, ShowsLogin;
    ghost var table := ctx.paramList[..];
    FormAnswered(table, pairs, secret, login);
    ServeForm(ctx, verb, "/login_response.html", pairs, pieces, proto, headers);
    username, userurl, buffer := HidePassword(ctx, order, secret);
    ghost var digest := PlainDigest(Octets(login.challenge), secret);
    DisclosesMore(Hidden(AfterForm(table, pairs), secret) + [0], buffer[..], Octets(login.password), digest);
  }
}
