/**
 * The few sscanf formats and the strtok calls http_main.c uses, as pure functions
 * (C11 sections 7.21.6.2 and 7.24.5.8).  A string stands for the characters before
 * the terminating NUL.
 */
module Scan {
  import opened Wrappers
  import opened UrlDecode

  /** Where c first occurs, or the length of the text. */
  function Until(s: string, c: char): (n: nat)
    ensures n <= |s|
    ensures forall i :: 0 <= i < n ==> s[i] != c
    ensures n < |s| ==> s[n] == c
  {
    if s == "" || s[0] == c then 0 else 1 + Until(s[1..], c)
  }

  lemma UntilUnique(s: string, c: char, n: nat)
    requires n <= |s| && (forall i :: 0 <= i < n ==> s[i] != c) && (n < |s| ==> s[n] == c)
    ensures Until(s, c) == n
  {
  }

  /** Where white space first occurs, or the length of the text. */
  function UntilSpace(s: string): (n: nat)
    ensures n <= |s|
    ensures forall i :: 0 <= i < n ==> !IsSpace(s[i])
    ensures n < |s| ==> IsSpace(s[n])
  {
    if s == "" || IsSpace(s[0]) then 0 else 1 + UntilSpace(s[1..])
  }

  function SkipSpace(s: string): (r: string)
    ensures |r| <= |s|
    ensures r != "" ==> !IsSpace(r[0])
    ensures s != "" && !IsSpace(s[0]) ==> r == s
  {
    if s != "" && IsSpace(s[0]) then SkipSpace(s[1..]) else s
  }

  /** The conversion %s: skip white space, then take the characters up to the next. */
  function Word(s: string): (w: Option<string>)
    ensures w.Some? ==> w.value != "" && !HasSpace(w.value)
  {
    var t := SkipSpace(s);
    if t == "" then None else Some(t[..UntilSpace(t)])
  }

  /** What is left after the conversion %s. */
  function AfterWord(s: string): string {
    var t := SkipSpace(s);
    t[UntilSpace(t)..]
  }

  lemma UntilSpaceUnique(s: string, n: nat)
    requires n <= |s| && (forall i :: 0 <= i < n ==> !IsSpace(s[i])) && (n < |s| ==> IsSpace(s[n]))
    ensures UntilSpace(s) == n
  {
    hide IsSpace;
  }

  lemma WordOfSolid(s: string)
    requires s != "" && !HasSpace(s)
    ensures Word(s) == Some(s)
  {
    assert !IsSpace(s[0]);
    UntilSpaceUnique(s, |s|);
    assert s[..|s|] == s;
  }

  lemma WordBeforeSpace(w: string, rest: string)
    requires w != "" && !HasSpace(w)
    ensures Word(w + " " + rest) == Some(w)
    ensures AfterWord(w + " " + rest) == " " + rest
  {
    var s := w + " " + rest;
    assert forall i :: 0 <= i < |w| ==> s[i] == w[i];
    UntilSpaceUnique(s, |w|);
    assert s[..|w|] == w && s[|w|..] == " " + rest;
  }

  /** The two fields of a format "%[^c]c%s", each of them if it was assigned. */
  datatype Fields = Fields(first: Option<string>, second: Option<string>)

  function Split(s: string, c: char): (f: Fields)
    ensures f.second.Some? ==> f.first.Some?
    ensures f.first.Some? ==> f.first.value != "" && c !in f.first.value && f.first.value <= s
    ensures f.first.None? <==> s == "" || s[0] == c
    ensures f.first.Some? && f.first.value != s ==> s[|f.first.value|] == c
    ensures f.second.Some? ==> f.second.value != "" && !HasSpace(f.second.value)
    ensures f.second == if f.first.Some? && f.first.value != s then Word(s[|f.first.value| + 1..]) else None
  {
    var n := Until(s, c);
    if n == 0 then Fields(None, None)
    else if n == |s| then Fields(Some(s), None)
    else Fields(Some(s[..n]), Word(s[n + 1..]))
  }

  /** Both fields come back exactly when the first is a non-empty text without c and the second one solid word. */
  lemma SplitJoins(first: string, c: char, second: string)
    ensures Split(first + [c] + second, c) == Fields(Some(first), Some(second))
            <==> first != "" && c !in first && second != "" && !HasSpace(second)
  {
    var s := first + [c] + second;
    if first != "" && c !in first && second != "" && !HasSpace(second) {
      assert s[..|first|] == first;
      UntilUnique(s, c, |first|);
      assert s[|first| + 1..] == second;
      WordOfSolid(second);
    }
  }

  predicate IsLineEnd(c: char) {
    c == '\r' || c == '\n'
  }

  /** Where a line ends, or the length of the text. */
  function UntilLineEnd(s: string): (n: nat)
    ensures n <= |s|
    ensures forall i :: 0 <= i < n ==> !IsLineEnd(s[i])
    ensures n < |s| ==> IsLineEnd(s[n])
  {
    if s == "" || IsLineEnd(s[0]) then 0 else 1 + UntilLineEnd(s[1..])
  }

  /** The first token of strtok with the separators CR and LF. */
  function FirstLine(s: string): (line: Option<string>)
    ensures line.Some? ==> line.value != "" && forall i :: 0 <= i < |line.value| ==> !IsLineEnd(line.value[i])
    ensures line.None? <==> forall i :: 0 <= i < |s| ==> IsLineEnd(s[i])
  {
    if s == "" then None
    else if IsLineEnd(s[0]) then FirstLine(s[1..])
    else Some(s[..UntilLineEnd(s)])
  }

  lemma EndOfLine()
    ensures IsLineEnd('\r')
  {
  }

  lemma UntilLineEndUnique(s: string, n: nat)
    requires n <= |s| && (forall i :: 0 <= i < n ==> !IsLineEnd(s[i])) && (n < |s| ==> IsLineEnd(s[n]))
    ensures UntilLineEnd(s) == n
  {
    hide IsLineEnd;
  }

  lemma FirstLineBefore(line: string, rest: string)
    requires line != "" && forall i :: 0 <= i < |line| ==> !IsLineEnd(line[i])
    ensures FirstLine(line + "\r\n" + rest) == Some(line)
  {
    hide IsLineEnd;
    var s := line + "\r\n" + rest;
    assert s[0] == line[0];
    EndOfLine();
    UntilLineEndUnique(s, |line|);
    assert s[..|line|] == line;
  }

  /** strtok: the next token between separators and what follows it. */
  function NextToken(s: string, c: char): (r: Option<(string, string)>)
    ensures r.Some? ==> r.value.0 != "" && c !in r.value.0 && |r.value.1| < |s|
    ensures r.None? <==> forall i :: 0 <= i < |s| ==> s[i] == c
  {
    if s == "" then None
    else if s[0] == c then NextToken(s[1..], c)
    else
      var n := Until(s, c);
      assert s[0] != c;
      Some((s[..n], if n == |s| then "" else s[n + 1..]))
  }

  /** All tokens, in order. */
  function Tokenise(s: string, c: char): (tokens: seq<string>)
    ensures forall i :: 0 <= i < |tokens| ==> tokens[i] != "" && c !in tokens[i]
    ensures tokens == [] <==> forall i :: 0 <= i < |s| ==> s[i] == c
    decreases |s|
  {
    match NextToken(s, c)
    case None => []
    case Some(r) => [r.0] + Tokenise(r.1, c)
  }

  /** The tokens from a call of strtok on. */
  function Remaining(next: Option<(string, string)>, c: char): seq<string> {
    match next
    case None => []
    case Some(r) => [r.0] + Tokenise(r.1, c)
  }

  lemma TokeniseUnfolds(s: string, c: char)
    ensures Tokenise(s, c) == Remaining(NextToken(s, c), c)
  {
  }

  function JoinTokens(tokens: seq<string>, c: char): string {
    if tokens == [] then "" else if |tokens| == 1 then tokens[0] else tokens[0] + [c] + JoinTokens(tokens[1..], c)
  }

  /** Tokens that are joined by the separator come back. */
  lemma {:induction false} TokeniseJoins(tokens: seq<string>, c: char)
    requires forall i :: 0 <= i < |tokens| ==> tokens[i] != "" && c !in tokens[i]
    ensures Tokenise(JoinTokens(tokens, c), c) == tokens
    decreases |tokens|
  {
    if tokens != [] {
      var s, first := JoinTokens(tokens, c), tokens[0];
      var rest := JoinTokens(tokens[1..], c);
      assert s[..|first|] == first && s[0] != c;
      UntilUnique(s, c, |first|);
      TokeniseJoins(tokens[1..], c);
      if |tokens| > 1 {
        assert s[|first| + 1..] == rest;
      }
      assert tokens == [first] + tokens[1..];
    }
  }

  lemma {:induction false} NextTokenLength(s: string, c: char)
    requires NextToken(s, c).Some?
    ensures var r := NextToken(s, c).value; |r.0| + (if r.1 == "" then 0 else 1) + |r.1| <= |s|
  {
    if s[0] == c {
      NextTokenLength(s[1..], c);
    }
  }

  /** Cutting a text into tokens loses separators at most. */
  lemma {:induction false} TokensFit(s: string, c: char)
    ensures |JoinTokens(Tokenise(s, c), c)| <= |s|
    decreases |s|
  {
    hide NextToken;
    if NextToken(s, c).Some? {
      var r := NextToken(s, c).value;
      NextTokenLength(s, c);
      TokensFit(r.1, c);
      assert Tokenise(s, c)[1..] == Tokenise(r.1, c);
    }
  }

  /** More and longer tokens make a longer text. */
  lemma {:induction false} JoinGrows(a: seq<string>, b: seq<string>, c: char)
    requires |a| <= |b| && forall i :: 0 <= i < |a| ==> |a[i]| <= |b[i]|
    ensures |JoinTokens(a, c)| <= |JoinTokens(b, c)|
    decreases |a|
  {
    if a != [] {
      JoinGrows(a[1..], b[1..], c);
    }
  }

  /** The two fields and the character between them fit in the text. */
  lemma FieldsFit(s: string, c: char)
    requires Split(s, c).second.Some?
    ensures |Split(s, c).first.value| + 1 + |Split(s, c).second.value| <= |s|
  {
  }

  /** All tokens of strtok with the separators CR and LF. */
  function Lines(s: string): (lines: seq<string>)
    ensures lines == [] <==> FirstLine(s).None?
    ensures lines != [] ==> FirstLine(s) == Some(lines[0])
    decreases |s|
  {
    if s == "" then []
    else if IsLineEnd(s[0]) then Lines(s[1..])
    else [s[..UntilLineEnd(s)]] + Lines(s[UntilLineEnd(s)..])
  }

  /** The words of a text are no longer than the text, with a space between them. */
  lemma WordLength(s: string)
    ensures |AfterWord(s)| <= |s|
    ensures Word(s).Some? ==> |Word(s).value| + |AfterWord(s)| <= |s|
    ensures AfterWord(s) != "" ==> IsSpace(AfterWord(s)[0])
  {
    hide IsSpace;
  }

  lemma SkippedSpace(s: string)
    requires s != "" && IsSpace(s[0])
    ensures |SkipSpace(s)| < |s|
  {
    hide IsSpace;
  }

  /** A second word leaves room for the first and the space between them. */
  lemma SecondWordLength(s: string)
    requires Word(s).Some? && Word(AfterWord(s)).Some?
    ensures |Word(AfterWord(s)).value| + 2 <= |s|
  {
    hide IsSpace, UntilSpace;
    WordLength(s);
    SkippedSpace(AfterWord(s));
    var t := SkipSpace(AfterWord(s));
    assert |Word(AfterWord(s)).value| <= |t|;
  }

  /** Skipping white space leaves an end of the text, and skips nothing else. */
  lemma SkipIsSuffix(s: string)
    ensures SkipSpace(s) == s[|s| - |SkipSpace(s)|..]
    ensures forall k :: 0 <= k < |s| - |SkipSpace(s)| ==> IsSpace(s[k])
  {
    hide IsSpace;
  }

  lemma PieceOfSuffix(s: string, i: nat, n: nat)
    requires i + n <= |s| && (forall k :: 0 <= k < n ==> !IsSpace(s[i..][k])) && (n < |s[i..]| ==> IsSpace(s[i..][n]))
    ensures s[i..][..n] == s[i..i + n] && s[i..][n..] == s[i + n..]
    ensures forall k :: i <= k < i + n ==> !IsSpace(s[k])
    ensures i + n == |s| || IsSpace(s[i + n])
  {
    hide IsSpace;
    forall k | i <= k < i + n ensures !IsSpace(s[k]) {
      assert s[i..][k - i] == s[k];
    }
  }

  /** A word is the piece of the text from the first other character up to the next white space. */
  lemma WordIsPiece(s: string) returns (i: nat, j: nat)
    ensures i <= j <= |s| && AfterWord(s) == s[j..]
    ensures forall k :: 0 <= k < i ==> IsSpace(s[k])
    ensures i == |s| || !IsSpace(s[i])
    ensures forall k :: i <= k < j ==> !IsSpace(s[k])
    ensures j == |s| || IsSpace(s[j])
    ensures Word(s) == if i == |s| then None else Some(s[i..j])
  {
    hide IsSpace, SkipSpace, UntilSpace;
    SkipIsSuffix(s);
    var t := SkipSpace(s);
    i := |s| - |t|;
    j := i + UntilSpace(t);
    PieceOfSuffix(s, i, UntilSpace(t));
  }

  /** The first line is the piece of the text from the first other character up to the next CR or LF. */
  lemma {:induction false} LineIsPiece(s: string) returns (i: nat, j: nat)
    requires FirstLine(s).Some?
    ensures i < j <= |s| && FirstLine(s).value == s[i..j]
    ensures forall k :: 0 <= k < i ==> IsLineEnd(s[k])
    ensures j == |s| || IsLineEnd(s[j])
  {
    hide IsLineEnd;
    if IsLineEnd(s[0]) {
      i, j := LineIsPiece(s[1..]);
      i, j := i + 1, j + 1;
    } else {
      i, j := 0, UntilLineEnd(s);
    }
  }

  /** What is scanned after the character is a piece of the text. */
  lemma SecondIsPiece(s: string, c: char) returns (i: nat, j: nat)
    requires Split(s, c).second.Some?
    ensures i <= j <= |s| && Split(s, c).second.value == s[i..j]
  {
    hide Word;
    var n := Until(s, c);
    i, j := WordIsPiece(s[n + 1..]);
    i, j := n + 1 + i, n + 1 + j;
  }

  lemma TokeniseLeading(s: string, c: char)
    ensures Tokenise([c] + s, c) == Tokenise(s, c)
  {
    assert ([c] + s)[1..] == s;
  }

  /** Separators at the start are skipped, and a token ends at the next separator, however many follow. */
  lemma TokeniseRuns(token: string, s: string, c: char)
    requires token != "" && c !in token
    ensures Tokenise([c] + s, c) == Tokenise(s, c)
    ensures Tokenise(token, c) == [token]
    ensures Tokenise(token + [c] + s, c) == [token] + Tokenise(s, c)
    ensures Tokenise("", c) == []
  {
    TokeniseLeading(s, c);
    UntilUnique(token, c, |token|);
    assert token[..|token|] == token;
    var t := token + [c] + s;
    UntilUnique(t, c, |token|);
    assert t[..|token|] == token && t[|token| + 1..] == s;
  }
}
