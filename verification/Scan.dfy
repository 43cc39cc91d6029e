/** The scanf conversions and string helpers the target file readers use (src/rtgtargets.c), on the
    text still to be read. Files contain no NUL characters. */
module Scan {
  import opened Words
  import opened Decimal

  predicate IsSpace(c: char) {
    c == ' ' || '\t' <= c <= '\r'
  }

  function SkipSpace(s: string): (t: string)
    ensures |t| <= |s| && (t == [] || !IsSpace(t[0]))
  {
    if s != [] && IsSpace(s[0]) then SkipSpace(s[1..]) else s
  }

  /** The end of the word that starts at 0 and has gone on to `k`. */
  function WordEnd(s: string, k: nat, max: nat): (n: nat)
    requires k <= |s| && k <= max
    ensures k <= n <= |s| && n <= max
    decreases |s| - k
  {
    if k == max || k == |s| || IsSpace(s[k]) then k else WordEnd(s, k + 1, max)
  }

  /** " %<max>s": the next word, cut off at the maximum, and what follows; none at the end of the file. */
  function Word(s: string, max: nat): (r: Option<(string, string)>)
    requires max > 0
    ensures r.Some? ==> |r.value.1| < |s|
  {
    var t := SkipSpace(s);
    var n := WordEnd(t, 0, max);
    if n == 0 then None else Some((t[..n], t[n..]))
  }

  /** "%*[^\n]": the rest of the line goes, the newline stays. */
  function SkipLine(s: string): (t: string)
    ensures |t| <= |s|
  {
    if s == [] || s[0] == '\n' then s else SkipLine(s[1..])
  }

  /** The integer after white space, if there is one; a sign is consumed even if no digit follows. */
  function ScanInt(s: string): (r: (Option<int>, string))
    ensures |r.1| <= |s|
  {
    var t := SkipSpace(s);
    var signed := t != [] && (t[0] == '-' || t[0] == '+');
    var digits := if signed then t[1..] else t;
    match ReadNumber(digits)
    case None => (None, digits)
    case Some((n, rest)) =>
      ReadNumberShrinks(digits);
      var value: int := n;
      (Some(if signed && t[0] == '-' then -value else value), rest)
  }

  lemma ReadNumberShrinks(s: string)
    ensures match ReadNumber(s) case None => true case Some((n, rest)) => |rest| <= |s|
  {
    ReadDigitsShrinks(s, 0);
  }

  lemma {:induction false} ReadDigitsShrinks(s: string, acc: nat)
    ensures |ReadDigits(s, acc).1| <= |s|
  {
    if s == [] || !IsDigit(s[0]) {
    } else {
      ReadDigitsShrinks(s[1..], 10 * acc + (s[0] as int - '0' as int));
    }
  }

  // Out-of-range numbers, as glibc converts them: strtoull and strtol clamp, assignments truncate.

  function ToUnsigned(n: int): u64 {
    if 0 <= n < TWO64 then n else if n < 0 < n + TWO64 then n + TWO64 else TWO64 - 1
  }

  function ToSigned(n: int): int {
    if n < -0x8000_0000_0000_0000 then -0x8000_0000_0000_0000
    else if n > 0x7FFF_FFFF_FFFF_FFFF then 0x7FFF_FFFF_FFFF_FFFF
    else n
  }

  function ToInt(n: int): int {
    var low: int := Wrap32(ToSigned(n));
    if low < 0x8000_0000 then low else low - TWO32
  }

  lemma SmallInt(n: nat)
    requires n < 0x8000_0000
    ensures ToInt(n) == n
  {
  }

  /** A number of up to 64 bits, negated or not, keeps its low bits; any other becomes the largest word. */
  lemma UnsignedKeepsLowBits(n: int)
    ensures ToUnsigned(n) == if -0x1_0000_0000_0000_0000 < n < 0x1_0000_0000_0000_0000 then n % TWO64 else TWO64 - 1
  {
  }

  /** A number that fits a long keeps its low 32 bits, as a signed int; a larger one becomes -1, a smaller
      one 0. */
  lemma IntKeepsLowBits(n: int)
    ensures -0x8000_0000 <= ToInt(n) < 0x8000_0000
    ensures if n > 0x7FFF_FFFF_FFFF_FFFF then ToInt(n) == -1
            else if n < -0x8000_0000_0000_0000 then ToInt(n) == 0
            else (ToInt(n) - n) % TWO32 == 0
  {
  }

  // Strings.

  /** The position of the first `c` at or after `k`; the length if there is none. */
  function IndexOf(s: string, c: char, k: nat): (n: nat)
    requires k <= |s|
    ensures k <= n <= |s| && (n < |s| ==> s[n] == c) && forall i :: k <= i < n ==> s[i] != c
    decreases |s| - k
  {
    if k == |s| || s[k] == c then k else IndexOf(s, c, k + 1)
  }

  /** strclean and strunc: the string ends at the first `c`. */
  function Before(s: string, c: char): (t: string)
    ensures |t| <= |s|
  {
    s[..IndexOf(s, c, 0)]
  }

  function LowerChar(c: char): char {
    if 'A' <= c <= 'Z' then (c as int + 32) as char else c
  }

  function Lower(s: string): (t: string)
    ensures |t| == |s| && forall i :: 0 <= i < |s| ==> t[i] == LowerChar(s[i])
  {
    if s == [] then [] else [LowerChar(s[0])] + Lower(s[1..])
  }

  method ToLower(str: array<char>)
    modifies str
    ensures str[..] == Lower(old(str[..]))
  {
    for i := 0 to str.Length
      invariant forall j :: 0 <= j < i ==> str[j] == LowerChar(old(str[j]))
      invariant forall j :: i <= j < str.Length ==> str[j] == old(str[j])
    {
      str[i] := LowerChar(str[i]);
    }
  }

  /** What the readers compare with their keywords. */
  function Token(word: string): string {
    Before(Lower(word), ';')
  }

  predicate IsComment(token: string) {
    token != [] && token[0] == '#'
  }

  /** The next token that is not part of a comment, and what follows its word. */
  function NextToken(s: string): (r: Option<(string, string)>)
    ensures r.Some? ==> |r.value.1| < |s|
    decreases |s|
  {
    match Word(s, 512)
    case None => None
    case Some((word, rest)) =>
      if IsComment(Token(word)) then NextToken(SkipLine(rest)) else Some((Token(word), rest))
  }

  /** All the tokens of a text, whatever they mean. */
  function Tokens(s: string): seq<string>
    decreases |s|
  {
    match NextToken(s)
    case None => []
    case Some((token, rest)) => [token] + Tokens(rest)
  }

  /** An open file: each call is one library call of the original. */
  class Stream {
    var rest: string

    constructor (text: string)
      ensures rest == text
    {
      rest := text;
    }

    method ReadWord(max: nat) returns (word: Option<string>)
      requires max > 0
      modifies this
      ensures match Word(old(rest), max)
              case None => word == None && rest == ""
              case Some((w, r)) => word == Some(w) && rest == r
    {
      match Word(rest, max) {
        case None =>
          word, rest := None, "";
        case Some((w, r)) =>
          word, rest := Some(w), r;
      }
    }

    method SkipToNewline()
      modifies this
      ensures rest == SkipLine(old(rest))
    {
      rest := SkipLine(rest);
    }

    method ReadInt() returns (n: Option<int>)
      modifies this
      ensures (n, rest) == ScanInt(old(rest))
    {
      var r := ScanInt(rest);
      n, rest := r.0, r.1;
    }
  }

  // Reading back what was written.

  ghost predicate AllSpace(s: string) {
    forall i :: 0 <= i < |s| ==> IsSpace(s[i])
  }

  ghost predicate NoSpace(s: string) {
    forall i :: 0 <= i < |s| ==> !IsSpace(s[i])
  }

  predicate EndsWord(rest: string) {
    rest == [] || IsSpace(rest[0])
  }

  lemma {:induction false} SkipsSpace(space: string, s: string)
    requires AllSpace(space)
    ensures SkipSpace(space + s) == SkipSpace(s)
  {
    if space == [] {
      assert space + s == s;
    } else {
      assert (space + s)[1..] == space[1..] + s;
      SkipsSpace(space[1..], s);
    }
  }

  lemma {:induction false} WordEndIs(w: string, rest: string, k: nat, max: nat)
    requires NoSpace(w) && k <= |w| <= max && (EndsWord(rest) || |w| == max)
    ensures WordEnd(w + rest, k, max) == |w|
    decreases |w| - k
  {
    if k == |w| {
    } else {
      WordEndIs(w, rest, k + 1, max);
    }
  }

  /** A word comes back whole, or as much of it as the buffer holds. */
  lemma WordRoundTrip(space: string, w: string, rest: string, max: nat)
    requires AllSpace(space) && w != [] && NoSpace(w) && |w| <= max && (EndsWord(rest) || |w| == max)
    ensures Word(space + (w + rest), max) == Some((w, rest))
  {
    SkipsSpace(space, w + rest);
    assert SkipSpace(w + rest) == w + rest by {
      assert (w + rest)[0] == w[0];
    }
    WordEndIs(w, rest, 0, max);
  }

  lemma WordSkipsSpace(space: string, s: string, max: nat)
    requires AllSpace(space) && max > 0
    ensures Word(space + s, max) == Word(s, max)
  {
    SkipsSpace(space, s);
  }

  lemma IntRoundTrip(space: string, n: nat, rest: string)
    requires AllSpace(space) && StartsPlain(rest)
    ensures ScanInt(space + (Dec(n) + rest)) == (Some(n), rest)
  {
    SkipsSpace(space, Dec(n) + rest);
    NumberRoundTrip(n, rest);
    assert (Dec(n) + rest)[0] == Dec(n)[0];
    assert SkipSpace(Dec(n) + rest) == Dec(n) + rest;
  }

  /** A sign in front of the digits counts. */
  lemma SignedRoundTrip(space: string, n: nat, rest: string)
    requires AllSpace(space) && StartsPlain(rest)
    ensures ScanInt(space + ("-" + (Dec(n) + rest))) == (Some(0 - n), rest)
    ensures ScanInt(space + ("+" + (Dec(n) + rest))) == (Some(n), rest)
  {
    SkipsSpace(space, "-" + (Dec(n) + rest));
    SkipsSpace(space, "+" + (Dec(n) + rest));
    NumberRoundTrip(n, rest);
    assert ("-" + (Dec(n) + rest))[1..] == Dec(n) + rest == ("+" + (Dec(n) + rest))[1..];
  }

  /** Without a digit there is no number, and nothing but white space and a sign is consumed. */
  lemma NoNumber(space: string, sign: string, rest: string)
    requires AllSpace(space) && sign in {"", "-", "+"} && StartsPlain(rest) && !IsSpace(FirstOr(rest, '?'))
    requires sign == "" ==> FirstOr(rest, '?') !in {'-', '+'}
    ensures ScanInt(space + (sign + rest)) == (None, rest)
  {
    SkipsSpace(space, sign + rest);
    assert sign != "" ==> (sign + rest)[1..] == rest;
    assert "" + rest == rest;
  }

  function FirstOr(s: string, c: char): char {
    if s == [] then c else s[0]
  }

  /** White space is what isspace takes for it. */
  lemma SpaceIs(c: char)
    ensures IsSpace(c) <==> c in {' ', '\t', '\n', 11 as char, 12 as char, '\r'}
  {
  }

  lemma {:induction false} LineSkipped(text: string, rest: string)
    requires Without(text, '\n')
    ensures SkipLine(text + ("\n" + rest)) == "\n" + rest
  {
    if text == [] {
      assert text + ("\n" + rest) == "\n" + rest;
    } else {
      assert (text + ("\n" + rest))[1..] == text[1..] + ("\n" + rest);
      LineSkipped(text[1..], rest);
    }
  }

  lemma BeforeIs(s: string, c: char, tail: string)
    requires Without(s, c)
    ensures Before(s + [c] + tail, c) == s && Before(s, c) == s
  {
    var t := s + [c] + tail;
    assert t[|s|] == c;
    assert IndexOf(t, c, 0) == |s|;
  }

  /** A word is a spelling of another if only some of its letters are capitals instead. */
  ghost predicate Spells(word: string, w: string) {
    && |word| == |w|
    && forall i :: 0 <= i < |w| ==>
         word[i] == w[i] || ('a' <= w[i] <= 'z' && word[i] as int == w[i] as int - 'a' as int + 'A' as int)
  }

  ghost predicate NoCapitals(w: string) {
    forall i :: 0 <= i < |w| ==> !('A' <= w[i] <= 'Z')
  }

  /** However a word is spelled its token is the same, in lower case, also with a semicolon after it. */
  lemma TokenIs(word: string, w: string)
    requires Spells(word, w) && NoCapitals(w) && Without(w, ';')
    ensures Token(word) == w && Token(word + ";") == w
  {
    assert Lower(word) == w;
    assert Lower(word + ";") == w + ";" == w + [';'] + [];
    BeforeIs(w, ';', []);
  }

  lemma TokenSkipsSpace(space: string, s: string)
    requires AllSpace(space)
    ensures NextToken(space + s) == NextToken(s)
  {
    WordSkipsSpace(space, s, 512);
  }

  lemma TokenRoundTrip(w: string, rest: string)
    requires w != [] && NoSpace(w) && EndsWord(rest) && |w| <= 512 && !IsComment(Token(w))
    ensures NextToken(w + rest) == Some((Token(w), rest))
  {
    assert [] + (w + rest) == w + rest;
    WordRoundTrip([], w, rest, 512);
  }

  /** A comment, however long, is passed over together with its line. */
  lemma CommentSkipped(text: string, rest: string)
    requires Without(text, '\n')
    ensures NextToken("#" + (text + ("\n" + rest))) == NextToken(rest)
  {
    var s := "#" + (text + ("\n" + rest));
    var line := "#" + text;
    var n := WordEnd(s, 0, 512);
    assert SkipSpace(s) == s;
    assert s == line + ("\n" + rest);
    WordStaysInLine(line, rest, 0);
    FirstCharStays(s[..n]);
    assert s[n..] == line[n..] + ("\n" + rest);
    LineSkipped(line[n..], rest);
    TokenSkipsSpace("\n", rest);
  }

  lemma {:induction false} WordStaysInLine(line: string, rest: string, k: nat)
    requires line != [] && !IsSpace(line[0]) && k <= |line| && k <= 512
    ensures WordEnd(line + ("\n" + rest), k, 512) <= |line|
    ensures WordEnd(line + ("\n" + rest), 0, 512) > 0
    decreases |line| - k
  {
    if k == |line| || k == 512 {
    } else {
      WordStaysInLine(line, rest, k + 1);
    }
  }

  lemma FirstCharStays(word: string)
    requires word != [] && word[0] == '#'
    ensures IsComment(Token(word))
  {
    assert Lower(word)[0] == '#';
  }
}
