/**
 * The percent-decoder of http_main.c.  It knows twelve escapes: the characters
 * : / ? = & escaped once and : / ? escaped twice.  On a '%' that starts none of
 * them its loop makes no progress.
 */
module UrlDecode {
  import opened Wrappers
  import Hex

  // ------------------------------------------------------------------- escapes

  const COUNT := 12

  /** The spellings, in the order the source tries them. */
  function Text(i: nat): (t: string)
    requires i < COUNT
    ensures |t| == if i < 9 then 3 else 5
    ensures t[0] == '%'
  {
    match i
    case 0 => "%3a"
    case 1 => "%3A"
    case 2 => "%2f"
    case 3 => "%2F"
    case 4 => "%3f"
    case 5 => "%3F"
    case 6 => "%3d"
    case 7 => "%3D"
    case 8 => "%26"
    case 9 => "%253a"
    case 10 => "%252f"
    case _ => "%253f"
  }

  /** The character each spelling stands for. */
  function Plain(i: nat): (c: char)
    requires i < COUNT
    ensures c != '%'
  {
    match i
    case 0 => ':'
    case 1 => ':'
    case 2 => '/'
    case 3 => '/'
    case 4 => '?'
    case 5 => '?'
    case 6 => '='
    case 7 => '='
    case 8 => '&'
    case 9 => ':'
    case 10 => '/'
    case _ => '?'
  }

  /** No spelling starts another. */
  lemma PrefixCode(i: nat, j: nat)
    requires i < COUNT && j < COUNT && Text(i) <= Text(j)
    ensures i == j
  {
    var s, t := Text(i), Text(j);
    assert s[1] == t[1] && s[2] == t[2];
    assert i >= 9 ==> s[3] == t[3] && s[4] == t[4];
  }

  /** The first spelling from number i on that the text starts with. */
  function Recognise(s: string, i: nat): (e: Option<nat>)
    requires i <= COUNT
    ensures e.Some? ==> i <= e.value < COUNT && Text(e.value) <= s
    ensures e.None? ==> forall j: nat :: i <= j < COUNT ==> !(Text(j) <= s)
    decreases COUNT - i
  {
    if i == COUNT then None else if Text(i) <= s then Some(i) else Recognise(s, i + 1)
  }

  /** A text starts with at most one spelling, so the order of the comparisons does not matter. */
  lemma RecogniseFinds(s: string, i: nat)
    requires i < COUNT && Text(i) <= s
    ensures Recognise(s, 0) == Some(i)
  {
    hide Text;
    var j := Recognise(s, 0).value;
    if |Text(i)| <= |Text(j)| {
      assert Text(i) == Text(j)[..|Text(i)|];
      PrefixCode(i, j);
    } else {
      assert Text(j) == Text(i)[..|Text(j)|];
      PrefixCode(j, i);
    }
  }

  // ------------------------------------------------------------------ decoding

  /** How much of the text one round of the loop consumes; nothing when it is stuck. */
  function TokenLength(s: string): (n: nat)
    requires s != ""
    ensures n <= |s|
    ensures s[0] != '%' ==> n == 1
    ensures n == 0 <==> s[0] == '%' && Recognise(s, 0).None?
  {
    if s[0] != '%' then 1 else match Recognise(s, 0) case Some(i) => |Text(i)| case None => 0
  }

  /** The character the round appends. */
  function TokenValue(s: string): (c: char)
    requires s != "" && TokenLength(s) > 0
    ensures c != '%'
    ensures TokenLength(s) == 1 ==> c == s[0]
  {
    if s[0] != '%' then s[0] else Plain(Recognise(s, 0).value)
  }

  /** At every token boundary a '%' starts a known escape. */
  predicate Decodable(s: string) {
    s == "" || (TokenLength(s) > 0 && Decodable(s[TokenLength(s)..]))
  }

  function Decode(s: string): (d: string)
    requires Decodable(s)
    ensures forall i :: 0 <= i < |d| ==> d[i] != '%'
  {
    if s == "" then "" else [TokenValue(s)] + Decode(s[TokenLength(s)..])
  }

  lemma DecodeUnfolds(s: string)
    requires s != "" && Decodable(s)
    ensures TokenLength(s) > 0 && Decodable(s[TokenLength(s)..])
    ensures Decode(s) == [TokenValue(s)] + Decode(s[TokenLength(s)..])
  {
    hide TokenLength, TokenValue;
  }

  lemma NothingDecoded()
    ensures Decodable("") && Decode("") == ""
  {
  }

  // ---------------------------------------------------------------- termination

  datatype Cursor = Cursor(idx: nat, out: string)

  /** One execution of the loop body; an unknown escape leaves everything as it is. */
  function LoopBody(qs: string, c: Cursor): (r: Cursor)
    requires c.idx < |qs|
    ensures c.idx <= r.idx <= |qs|
  {
    var n := TokenLength(qs[c.idx..]);
    if n == 0 then c else Cursor(c.idx + n, c.out + [TokenValue(qs[c.idx..])])
  }

  /** At most k executions of the loop body. */
  function RunLoop(qs: string, c: Cursor, k: nat): (r: Cursor)
    requires c.idx <= |qs|
    ensures r.idx <= |qs|
    decreases k
  {
    if k == 0 || c.idx == |qs| then c else RunLoop(qs, LoopBody(qs, c), k - 1)
  }

  /** The loop ends after some number of rounds. */
  ghost predicate Terminates(qs: string, c: Cursor)
    requires c.idx <= |qs|
  {
    exists k: nat :: RunLoop(qs, c, k).idx == |qs|
  }

  lemma AppendAssociates(a: string, b: string, c: string)
    ensures a + (b + c) == (a + b) + c
  {
  }

  /** A round moves one token from what is left to what was put out. */
  lemma LoopBodyDecodes(qs: string, c: Cursor)
    requires c.idx < |qs| && Decodable(qs[c.idx..])
    ensures var r := LoopBody(qs, c);
            && c.idx < r.idx && Decodable(qs[r.idx..])
            && r.out + Decode(qs[r.idx..]) == c.out + Decode(qs[c.idx..])
  {
    hide TokenLength, TokenValue, Decode, Decodable;
    var rest := qs[c.idx..];
    DecodeUnfolds(rest);
    var tail := rest[TokenLength(rest)..];
    assert tail == qs[c.idx + TokenLength(rest)..];
    AppendAssociates(c.out, [TokenValue(rest)], Decode(tail));
  }

  lemma {:induction false} RunDecodes(qs: string, c: Cursor, k: nat)
    requires c.idx <= |qs| && Decodable(qs[c.idx..]) && |qs| - c.idx <= k
    ensures RunLoop(qs, c, k) == Cursor(|qs|, c.out + Decode(qs[c.idx..]))
    decreases k
  {
    hide LoopBody;
    if c.idx < |qs| {
      LoopBodyDecodes(qs, c);
      RunDecodes(qs, LoopBody(qs, c), k - 1);
    }
  }

  lemma {:induction false} RunSticks(qs: string, c: Cursor, k: nat)
    requires c.idx <= |qs| && RunLoop(qs, c, k).idx == |qs|
    ensures Decodable(qs[c.idx..])
    decreases k
  {
    hide TokenLength, TokenValue;
    var rest := qs[c.idx..];
    if rest != "" {
      RunSticks(qs, LoopBody(qs, c), k - 1);
      assert rest[TokenLength(rest)..] == qs[c.idx + TokenLength(rest)..];
    }
  }

  /** The decoder's loop ends exactly on the decodable texts, and then it has decoded them. */
  lemma TerminatesIffDecodable(qs: string)
    ensures Terminates(qs, Cursor(0, "")) <==> Decodable(qs)
    ensures Decodable(qs) ==> RunLoop(qs, Cursor(0, ""), |qs|) == Cursor(|qs|, Decode(qs))
  {
    assert qs[0..] == qs;
    var start := Cursor(0, "");
    if Decodable(qs) {
      RunDecodes(qs, start, |qs|);
    }
    if Terminates(qs, start) {
      var k: nat :| RunLoop(qs, start, k).idx == |qs|;
      RunSticks(qs, start, k);
    }
  }

  /** No spelling is missed: a text that starts with '%' and with none of them stops the loop for good. */
  lemma UnknownEscape(s: string)
    requires s != "" && s[0] == '%' && forall i: nat :: i < COUNT ==> !(Text(i) <= s)
    ensures !Terminates(s, Cursor(0, ""))
  {
    hide Text;
    TerminatesIffDecodable(s);
  }

  /** An escaped space, and the upper-case double escape of ':', are such texts. */
  lemma LoopsOnSpaceAndUpperCase()
    ensures !Terminates("%20", Cursor(0, ""))
    ensures !Terminates("%253A", Cursor(0, ""))
  {
    hide Terminates;
    forall i: nat | i < COUNT ensures !(Text(i) <= "%20") && !(Text(i) <= "%253A") {
      var t := Text(i);
      assert t[2] != '0' && !(t[1] == '2' && t[2] == '5' && |t| == 3);
      assert |t| == 5 ==> t[4] != 'A';
    }
    UnknownEscape("%20");
    UnknownEscape("%253A");
  }

  // ------------------------------------------------------------------ encoders

  /** A text an encoder may choose for a character: itself, or any of its escapes. */
  ghost predicate Spells(piece: string, c: char) {
    (piece == [c] && c != '%') || exists i: nat :: i < COUNT && piece == Text(i) && c == Plain(i)
  }

  function Joined(pieces: seq<string>): string {
    if pieces == [] then "" else pieces[0] + Joined(pieces[1..])
  }

  /** The text is what some encoder makes of the plain text, character by character. */
  ghost predicate Encodes(pieces: seq<string>, plain: string) {
    |pieces| == |plain| && forall i :: 0 <= i < |plain| ==> Spells(pieces[i], plain[i])
  }

  lemma TokenOfSpelling(piece: string, c: char, rest: string)
    requires Spells(piece, c)
    ensures piece != "" && TokenLength(piece + rest) == |piece| && TokenValue(piece + rest) == c
  {
    hide Text, Plain;
    if !(piece == [c] && c != '%') {
      var i: nat :| i < COUNT && piece == Text(i) && c == Plain(i);
      RecogniseFinds(piece + rest, i);
    }
  }

  lemma DecodeSpelling(piece: string, c: char, rest: string)
    requires Spells(piece, c) && Decodable(rest)
    ensures Decodable(piece + rest) && Decode(piece + rest) == [c] + Decode(rest)
  {
    hide TokenLength, TokenValue, Spells;
    TokenOfSpelling(piece, c, rest);
    assert (piece + rest)[|piece|..] == rest;
  }

  /** The decoder inverts every encoder, whatever spelling it chose for each character. */
  lemma {:induction false} DecodeInvertsEncoders(pieces: seq<string>, plain: string)
    requires Encodes(pieces, plain)
    ensures Decodable(Joined(pieces)) && Decode(Joined(pieces)) == plain
    decreases |pieces|
  {
    hide Spells;
    if pieces != [] {
      var rest := Joined(pieces[1..]);
      DecodeInvertsEncoders(pieces[1..], plain[1..]);
      DecodeSpelling(pieces[0], plain[0], rest);
      assert plain == [plain[0]] + plain[1..];
    }
  }

  /** The two hexadecimal digits of a character's code. */
  function CodeDigits(c: char, digits: string): string
    requires c as int < 0x100 && |digits| == 16
  {
    [digits[c as int / 16], digits[c as int % 16]]
  }

  /** The escapes of a character: '%' and its code for : / ? = &, and with the '%' escaped for the first three. */
  predicate IsEscape(piece: string, c: char) {
    || (c in ":/?=&" && (piece == "%" + CodeDigits(c, Hex.LOWER) || piece == "%" + CodeDigits(c, Hex.UPPER)))
    || (c in ":/?" && piece == "%25" + CodeDigits(c, Hex.LOWER))
  }

  lemma EscapesOfColon(piece: string)
    ensures IsEscape(piece, ':') <==> exists i: nat :: i < COUNT && piece == Text(i) && ':' == Plain(i)
  {
    assert CodeDigits(':', Hex.LOWER) == "3a" && CodeDigits(':', Hex.UPPER) == "3A";
    assert Text(0) == "%" + "3a" && Text(1) == "%" + "3A" && Text(9) == "%25" + "3a";
  }

  lemma EscapesOfSlash(piece: string)
    ensures IsEscape(piece, '/') <==> exists i: nat :: i < COUNT && piece == Text(i) && '/' == Plain(i)
  {
    assert CodeDigits('/', Hex.LOWER) == "2f" && CodeDigits('/', Hex.UPPER) == "2F";
    assert Text(2) == "%" + "2f" && Text(3) == "%" + "2F" && Text(10) == "%25" + "2f";
  }

  lemma EscapesOfMark(piece: string)
    ensures IsEscape(piece, '?') <==> exists i: nat :: i < COUNT && piece == Text(i) && '?' == Plain(i)
  {
    assert CodeDigits('?', Hex.LOWER) == "3f" && CodeDigits('?', Hex.UPPER) == "3F";
    assert Text(4) == "%" + "3f" && Text(5) == "%" + "3F" && Text(11) == "%25" + "3f";
  }

  lemma EscapesOfEquals(piece: string)
    ensures IsEscape(piece, '=') <==> exists i: nat :: i < COUNT && piece == Text(i) && '=' == Plain(i)
  {
    assert CodeDigits('=', Hex.LOWER) == "3d" && CodeDigits('=', Hex.UPPER) == "3D";
    assert Text(6) == "%" + "3d" && Text(7) == "%" + "3D";
  }

  lemma EscapesOfAmpersand(piece: string)
    ensures IsEscape(piece, '&') <==> exists i: nat :: i < COUNT && piece == Text(i) && '&' == Plain(i)
  {
    assert CodeDigits('&', Hex.LOWER) == "26" && CodeDigits('&', Hex.UPPER) == "26";
    assert Text(8) == "%" + "26";
  }

  lemma NoOtherPlain(i: nat)
    requires i < COUNT
    ensures Plain(i) in ":/?=&"
  {
  }

  lemma NoEscape(piece: string, c: char)
    requires c !in ":/?=&"
    ensures !IsEscape(piece, c)
  {
  }

  /** A character may be spelled by itself, unless it is '%', by its escapes, and by nothing else. */
  lemma SpellsIff(piece: string, c: char)
    ensures Spells(piece, c) <==> (piece == [c] && c != '%') || IsEscape(piece, c)
  {
    hide Text, Plain, IsEscape;
    if c == ':' {
      EscapesOfColon(piece);
    } else if c == '/' {
      EscapesOfSlash(piece);
    } else if c == '?' {
      EscapesOfMark(piece);
    } else if c == '=' {
      EscapesOfEquals(piece);
    } else if c == '&' {
      EscapesOfAmpersand(piece);
    } else {
      NoEscape(piece, c);
      forall i: nat | i < COUNT ensures Plain(i) != c {
        NoOtherPlain(i);
      }
    }
  }

  /** Each escape decodes to its character. */
  lemma EscapeDecodes(piece: string, c: char)
    requires IsEscape(piece, c)
    ensures Decodable(piece) && Decode(piece) == [c]
  {
    hide IsEscape, Spells;
    SpellsIff(piece, c);
    NothingDecoded();
    DecodeSpelling(piece, c, "");
    assert piece + "" == piece;
  }

  lemma ColonAndSlash()
    ensures IsEscape("%" + "3a", ':') && IsEscape("%" + "3A", ':') && IsEscape("%25" + "3a", ':')
    ensures IsEscape("%" + "2f", '/') && IsEscape("%" + "2F", '/') && IsEscape("%25" + "2f", '/')
  {
    assert CodeDigits(':', Hex.LOWER) == "3a" && CodeDigits(':', Hex.UPPER) == "3A";
    assert CodeDigits('/', Hex.LOWER) == "2f" && CodeDigits('/', Hex.UPPER) == "2F";
  }

  lemma TheOthers()
    ensures IsEscape("%" + "3f", '?') && IsEscape("%" + "3F", '?') && IsEscape("%25" + "3f", '?')
    ensures IsEscape("%" + "3d", '=') && IsEscape("%" + "3D", '=') && IsEscape("%" + "26", '&')
  {
    assert CodeDigits('?', Hex.LOWER) == "3f" && CodeDigits('?', Hex.UPPER) == "3F";
    assert CodeDigits('=', Hex.LOWER) == "3d" && CodeDigits('=', Hex.UPPER) == "3D";
    assert CodeDigits('&', Hex.LOWER) == "26";
  }

  lemma EscapesOfColonAndSlashDecode()
    ensures Decodable("%3a") && Decode("%3a") == ":" && Decodable("%3A") && Decode("%3A") == ":"
    ensures Decodable("%253a") && Decode("%253a") == ":"
    ensures Decodable("%2f") && Decode("%2f") == "/" && Decodable("%2F") && Decode("%2F") == "/"
    ensures Decodable("%252f") && Decode("%252f") == "/"
  {
    hide Decodable, Decode, IsEscape;
    ColonAndSlash();
    assert "%" + "3a" == "%3a" && "%" + "3A" == "%3A" && "%25" + "3a" == "%253a";
    assert "%" + "2f" == "%2f" && "%" + "2F" == "%2F" && "%25" + "2f" == "%252f";
    EscapeDecodes("%" + "3a", ':');
    EscapeDecodes("%" + "3A", ':');
    EscapeDecodes("%25" + "3a", ':');
    EscapeDecodes("%" + "2f", '/');
    EscapeDecodes("%" + "2F", '/');
    EscapeDecodes("%25" + "2f", '/');
  }

  lemma EscapesOfTheOthersDecode()
    ensures Decodable("%3f") && Decode("%3f") == "?" && Decodable("%3F") && Decode("%3F") == "?"
    ensures Decodable("%253f") && Decode("%253f") == "?"
    ensures Decodable("%3d") && Decode("%3d") == "=" && Decodable("%3D") && Decode("%3D") == "="
    ensures Decodable("%26") && Decode("%26") == "&"
  {
    hide Decodable, Decode, IsEscape;
    TheOthers();
    assert "%" + "3f" == "%3f" && "%" + "3F" == "%3F" && "%25" + "3f" == "%253f";
    assert "%" + "3d" == "%3d" && "%" + "3D" == "%3D" && "%" + "26" == "%26";
    EscapeDecodes("%" + "3f", '?');
    EscapeDecodes("%" + "3F", '?');
    EscapeDecodes("%25" + "3f", '?');
    EscapeDecodes("%" + "3d", '=');
    EscapeDecodes("%" + "3D", '=');
    EscapeDecodes("%" + "26", '&');
  }

  /** The tokens the decoder cuts a text into. */
  function Tokens(s: string): (pieces: seq<string>)
    requires Decodable(s)
  {
    if s == "" then [] else [s[..TokenLength(s)]] + Tokens(s[TokenLength(s)..])
  }

  lemma TokenSpells(s: string)
    requires s != "" && TokenLength(s) > 0
    ensures Spells(s[..TokenLength(s)], TokenValue(s))
  {
    hide Text, Plain;
  }

  /** One more piece in front of an encoding. */
  lemma EncodesMore(piece: string, c: char, pieces: seq<string>, plain: string)
    requires Spells(piece, c) && Encodes(pieces, plain)
    ensures Encodes([piece] + pieces, [c] + plain) && Joined([piece] + pieces) == piece + Joined(pieces)
  {
    hide Spells;
    assert ([piece] + pieces)[1..] == pieces;
  }

  lemma NoPieces()
    ensures Joined([]) == "" && Encodes([], "")
  {
  }

  /** Conversely every decodable text is an encoding of what it decodes to. */
  lemma {:induction false} DecodableIsEncoding(s: string)
    requires Decodable(s)
    ensures Joined(Tokens(s)) == s && Encodes(Tokens(s), Decode(s))
    decreases |s|
  {
    hide TokenLength, TokenValue, Spells, Encodes, Joined;
    if s == "" {
      NoPieces();
    } else {
      var n := TokenLength(s);
      DecodableIsEncoding(s[n..]);
      TokenSpells(s);
      EncodesMore(s[..n], TokenValue(s), Tokens(s[n..]), Decode(s[n..]));
      assert s == s[..n] + s[n..];
    }
  }

  /** How many tokens have the given length. */
  function CountTokens(s: string, length: nat): nat
    requires Decodable(s)
  {
    if s == "" then 0
    else (if TokenLength(s) == length then 1 else 0) + CountTokens(s[TokenLength(s)..], length)
  }

  lemma TokenLengths(s: string)
    requires s != "" && TokenLength(s) > 0
    ensures TokenLength(s) in {1, 3, 5}
  {
  }

  /** Decoding shortens the text by two for each single and by four for each double escape. */
  lemma {:induction false} DecodedLength(s: string)
    requires Decodable(s)
    ensures |s| == |Decode(s)| + 2 * CountTokens(s, 3) + 4 * CountTokens(s, 5)
    decreases |s|
  {
    hide TokenLength, TokenValue;
    if s != "" {
      TokenLengths(s);
      DecodedLength(s[TokenLength(s)..]);
    }
  }

  /** A text without '%' is decodable and decodes to itself. */
  lemma {:induction false} PlainTextStays(s: string)
    requires '%' !in s
    ensures Decodable(s) && Decode(s) == s
    decreases |s|
  {
    hide Recognise;
    if s != "" {
      PlainTextStays(s[1..]);
    }
  }

  /** What was decoded decodes to itself. */
  lemma DecodeIdempotent(s: string)
    requires Decodable(s)
    ensures Decodable(Decode(s)) && Decode(Decode(s)) == Decode(s)
  {
    PlainTextStays(Decode(s));
  }

  predicate IsSpace(c: char) {
    c == ' ' || c == '\t' || c == '\n' || c == '\r' || c == '\U{0B}' || c == '\U{0C}'
  }

  predicate HasSpace(s: string) {
    exists i :: 0 <= i < |s| && IsSpace(s[i])
  }

  /** The white space of the "C" locale, by its codes. */
  lemma SpaceCodes(c: char)
    ensures IsSpace(c) <==> c as int == 32 || 9 <= c as int <= 13
  {
  }

  lemma SpaceInEither(a: string, b: string)
    ensures HasSpace(a + b) <==> HasSpace(a) || HasSpace(b)
  {
    var s := a + b;
    if HasSpace(a) {
      var i :| 0 <= i < |a| && IsSpace(a[i]);
      assert IsSpace(s[i]);
    }
    if HasSpace(b) {
      var i :| 0 <= i < |b| && IsSpace(b[i]);
      assert IsSpace(s[|a| + i]);
    }
  }

  lemma TokenSpace(s: string)
    requires s != "" && TokenLength(s) > 0
    ensures HasSpace(s[..TokenLength(s)]) <==> HasSpace([TokenValue(s)])
  {
    hide Recognise;
    if s[0] != '%' {
      assert s[..1] == [TokenValue(s)];
    } else {
      var i := Recognise(s, 0).value;
      assert s[..TokenLength(s)] == Text(i);
      assert !HasSpace(Text(i)) && !HasSpace([Plain(i)]);
    }
  }

  /** Only punctuation has escapes, so white space is neither brought in nor lost. */
  lemma {:induction false} SpaceStays(s: string)
    requires Decodable(s)
    ensures HasSpace(Decode(s)) <==> HasSpace(s)
    decreases |s|
  {
    hide TokenLength, TokenValue, HasSpace, Decode, Decodable;
    if s == "" {
      NothingDecoded();
    } else {
      DecodeUnfolds(s);
      var n := TokenLength(s);
      SpaceStays(s[n..]);
      TokenSpace(s);
      assert s == s[..n] + s[n..];
      SpaceInEither(s[..n], s[n..]);
      SpaceInEither([TokenValue(s)], Decode(s[n..]));
    }
  }
}
