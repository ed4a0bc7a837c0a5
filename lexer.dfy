/** What the assembler takes from `std::istringstream` and `<cctype>`: reading
    one white-space-delimited token, reading one decimal `int`, and ASCII
    upper-casing. */
module Lexer {
  import opened Isa

  /** The characters `std::isspace` accepts in the "C" locale. */
  predicate IsSpace(c: char) {
    c == ' ' || c == '\t' || c == '\n' || c == 11 as char || c == 12 as char || c == '\r'
  }

  /** A non-empty token: no white space inside. */
  predicate IsWord(s: string) {
    |s| > 0 && forall i :: 0 <= i < |s| ==> !IsSpace(s[i])
  }

  /** A string made of white space only. */
  predicate AllSpaces(s: string) {
    forall i :: 0 <= i < |s| ==> IsSpace(s[i])
  }

  /** `s` without its leading white space. */
  function SkipSpaces(s: string): (r: string)
    ensures |r| <= |s|
  {
    if s != [] && IsSpace(s[0]) then SkipSpaces(s[1..]) else s
  }

  /** What `SkipSpaces` drops is white space, what it keeps is a suffix of
      `s`, and that suffix does not start with white space. */
  lemma {:induction false} SkipSpacesSplits(s: string)
    ensures var r := SkipSpaces(s);
      r == s[|s| - |r|..] && AllSpaces(s[..|s| - |r|]) && (r == [] || !IsSpace(r[0]))
    decreases |s|
  {
    if s != [] && IsSpace(s[0]) {
      SkipSpacesSplits(s[1..]);
      var r := SkipSpaces(s);
      assert s[..|s| - |r|] == [s[0]] + s[1..][..|s| - 1 - |r|];
    }
  }

  /** The longest prefix of `s` that holds no white space. */
  function WordPrefix(s: string): (r: string)
    ensures |r| <= |s|
  {
    if s == [] || IsSpace(s[0]) then [] else [s[0]] + WordPrefix(s[1..])
  }

  /** `WordPrefix` keeps a prefix of `s` free of white space, and stops at the
      end or at white space. */
  lemma {:induction false} WordPrefixSplits(s: string)
    ensures var r := WordPrefix(s);
      r == s[..|r|] && (forall i :: 0 <= i < |r| ==> !IsSpace(r[i])) && (|r| == |s| || IsSpace(s[|r|]))
    decreases |s|
  {
    if !(s == [] || IsSpace(s[0])) {
      WordPrefixSplits(s[1..]);
    }
  }

  /** `iss >> token` for a `std::string`: skip white space, then take every
      character up to the next white space or the end. Returns the token and
      what is left of the stream. */
  function NextToken(s: string): (r: (string, string))
    ensures r.0 == [] || IsWord(r.0)
    ensures r.1 == [] || IsSpace(r.1[0])
  {
    var t := SkipSpaces(s);
    SkipSpacesSplits(s);
    var token := WordPrefix(t);
    WordPrefixSplits(t);
    (token, t[|token|..])
  }

  /** The token is a word (or empty, only when nothing but white space was
      left), the remainder starts at white space, and white space, token and
      remainder make up the stream. */
  lemma NextTokenSplits(s: string, r: (string, string))
    requires r == NextToken(s)
    ensures r.0 == [] || IsWord(r.0)
    ensures r.1 == [] || IsSpace(r.1[0])
    ensures r.0 == [] ==> r.1 == [] && AllSpaces(s)
    ensures |r.0| + |r.1| <= |s| && s[|s| - |r.0| - |r.1|..] == r.0 + r.1
    ensures AllSpaces(s[..|s| - |r.0| - |r.1|])
  {
    var t := SkipSpaces(s);
    SkipSpacesSplits(s);
    var token := WordPrefix(t);
    WordPrefixSplits(t);
    assert t == token + t[|token|..];
  }

  /** Leading white space, a word, and a remainder that starts at a space (or
      is empty) tokenise into exactly that word and that remainder. */
  lemma NextTokenOfWord(spaces: string, w: string, rest: string)
    requires AllSpaces(spaces) && IsWord(w)
    requires rest == [] || IsSpace(rest[0])
    ensures NextToken(spaces + w + rest) == (w, rest)
  {
    assert spaces + w + rest == spaces + (w + rest);
    SkipSpacesOfSpaces(spaces, w + rest);
    WordPrefixOfWord(w, rest);
    assert (w + rest)[|w|..] == rest;
  }

  lemma {:induction false} SkipSpacesOfSpaces(spaces: string, s: string)
    requires AllSpaces(spaces)
    requires s == [] || !IsSpace(s[0])
    ensures SkipSpaces(spaces + s) == s
    decreases |spaces|
  {
    if spaces != [] {
      assert (spaces + s)[1..] == spaces[1..] + s;
      SkipSpacesOfSpaces(spaces[1..], s);
    }
  }

  lemma {:induction false} WordPrefixOfWord(w: string, rest: string)
    requires forall i :: 0 <= i < |w| ==> !IsSpace(w[i])
    requires rest == [] || IsSpace(rest[0])
    ensures WordPrefix(w + rest) == w
    decreases |w|
  {
    if w != [] {
      assert (w + rest)[1..] == w[1..] + rest;
      WordPrefixOfWord(w[1..], rest);
    }
  }

  // ---------------------------------------------------------------------
  // std::toupper
  // ---------------------------------------------------------------------

  /** `std::toupper` in the "C" locale: only `a`-`z` change. */
  function UpperChar(c: char): (u: char)
    ensures 'a' <= c <= 'z' ==> 'A' <= u <= 'Z' && u as int == c as int - 32
    ensures !('a' <= c <= 'z') ==> u == c
  {
    if 'a' <= c <= 'z' then (c as int - 32) as char else c
  }

  /** A string with every character upper-cased: each of `a`-`z` becomes
      its upper-case letter, so no lower-case letter is left, and every
      other character keeps its place. */
  function ToUpper(s: string): (r: string)
    ensures |r| == |s|
    ensures forall i :: 0 <= i < |r| ==> !('a' <= r[i] <= 'z')
    ensures forall i :: 0 <= i < |s| && !('a' <= s[i] <= 'z') ==> r[i] == s[i]
    ensures forall i :: 0 <= i < |s| && 'a' <= s[i] <= 'z' ==> r[i] as int == s[i] as int - 32
  {
    seq(|s|, i requires 0 <= i < |s| => UpperChar(s[i]))
  }

  /** Upper-casing twice is upper-casing once, and it neither creates nor
      removes white space, so a token stays a token. */
  lemma ToUpperIdempotent(s: string)
    ensures ToUpper(ToUpper(s)) == ToUpper(s)
    ensures IsWord(s) ==> IsWord(ToUpper(s))
  {
    forall i | 0 <= i < |s|
      ensures ToUpper(ToUpper(s))[i] == ToUpper(s)[i]
      ensures !IsSpace(s[i]) ==> !IsSpace(ToUpper(s)[i])
    {
    }
  }

  /** The loop `for (auto& c : mnemonic) c = std::toupper(c);`, which upper-cases
      the token in place. */
  method UppercaseInPlace(a: array<char>)
    modifies a
    ensures a[..] == ToUpper(old(a[..]))
  {
    for i := 0 to a.Length
      invariant a[..i] == ToUpper(old(a[..]))[..i]
      invariant a[i..] == old(a[..])[i..]
    {
      a[i] := UpperChar(a[i]);
    }
  }

  // ---------------------------------------------------------------------
  // iss >> int
  // ---------------------------------------------------------------------

  predicate IsDigit(c: char) {
    '0' <= c <= '9'
  }

  predicate AllDigits(s: string) {
    forall i :: 0 <= i < |s| ==> IsDigit(s[i])
  }

  /** The value of a string of decimal digits, most significant first. */
  function DigitsValue(s: string): (v: nat)
    requires AllDigits(s)
    ensures s == [] ==> v == 0
    decreases |s|
  {
    if s == [] then 0
    else DigitsValue(s[..|s| - 1]) * 10 + (s[|s| - 1] as int - '0' as int)
  }

  /** A decimal numeral as `iss >> int` accepts one: an optional sign and at
      least one digit. */
  predicate IsNumeral(t: string) {
    if |t| > 0 && (t[0] == '-' || t[0] == '+') then |t| > 1 && AllDigits(t[1..])
    else |t| > 0 && AllDigits(t)
  }

  function NumeralValue(t: string): int
    requires IsNumeral(t)
  {
    if t[0] == '-' then 0 - DigitsValue(t[1..])
    else if t[0] == '+' then DigitsValue(t[1..])
    else DigitsValue(t)
  }

  /** A token that `iss >> x` reads into an `int x` without failing: a numeral
      whose value fits in 32 bits. */
  predicate IsIntToken(t: string) {
    IsNumeral(t) && -0x8000_0000 <= NumeralValue(t) < 0x8000_0000
  }

  /** The stream holds at least `k` further tokens and each of the first `k`
      is an `int` numeral. */
  predicate HasInts(s: string, k: nat)
    decreases k
  {
    k == 0 || (IsIntToken(NextToken(s).0) && HasInts(NextToken(s).1, k - 1))
  }

  /** `iss >> x1 >> ... >> xk` for `int` variables: the values of the next `k`
      tokens, in order. */
  function ReadInts(s: string, k: nat): (v: seq<CInt>)
    requires HasInts(s, k)
    ensures |v| == k
    decreases k
  {
    if k == 0 then []
    else
      var next := NextToken(s);
      [NumeralValue(next.0) as CInt] + ReadInts(next.1, k - 1)
  }

  /** `k` ints can be read when the next token is one and `k - 1` follow. */
  lemma HasIntsStep(s: string, k: nat)
    requires k > 0 && IsIntToken(NextToken(s).0) && HasInts(NextToken(s).1, k - 1)
    ensures HasInts(s, k)
  {
  }

  /** Unfolds one step of `ReadInts`. */
  lemma ReadIntsStep(s: string, k: nat)
    requires k > 0 && HasInts(s, k)
    ensures ReadInts(s, k) == [NumeralValue(NextToken(s).0) as CInt] + ReadInts(NextToken(s).1, k - 1)
  {
  }

  /** An `int` numeral holds no white space. */
  lemma IntTokenIsWord(t: string)
    requires IsIntToken(t)
    ensures IsWord(t)
  {
    assert forall i :: 1 <= i < |t| ==> t[1..][i - 1] == t[i];
  }

  /** Any `int` token after white space, in front of a space-led stream that
      holds `k` ints, makes a stream that holds `k + 1`, the token's value
      first: signs and several digits included. */
  lemma ReadTokenThen(spaces: string, t: string, rest: string, k: nat)
    requires AllSpaces(spaces) && IsIntToken(t)
    requires (rest == [] || IsSpace(rest[0])) && HasInts(rest, k)
    ensures HasInts(spaces + t + rest, k + 1)
    ensures ReadInts(spaces + t + rest, k + 1) == [NumeralValue(t) as CInt] + ReadInts(rest, k)
  {
    IntTokenIsWord(t);
    NextTokenOfWord(spaces, t, rest);
    HasIntsStep(spaces + t + rest, k + 1);
    ReadIntsStep(spaces + t + rest, k + 1);
  }

  /** Non-empty runs of white space. */
  predicate Separators(seps: seq<string>) {
    forall i :: 0 <= i < |seps| ==> |seps[i]| > 0 && AllSpaces(seps[i])
  }

  predicate AllIntTokens(ts: seq<string>) {
    forall i :: 0 <= i < |ts| ==> IsIntToken(ts[i])
  }

  /** The tokens `ts`, each after its own separator, then `tail`. */
  function Joined(seps: seq<string>, ts: seq<string>, tail: string): string
    requires |seps| == |ts|
    decreases |ts|
  {
    if ts == [] then tail else seps[0] + ts[0] + Joined(seps[1..], ts[1..], tail)
  }

  /** The values of `int` tokens, in order. */
  function NumeralValues(ts: seq<string>): (v: seq<CInt>)
    requires AllIntTokens(ts)
    ensures |v| == |ts|
    ensures forall i :: 0 <= i < |ts| ==> v[i] == NumeralValue(ts[i])
  {
    seq(|ts|, i requires 0 <= i < |ts| && AllIntTokens(ts) => NumeralValue(ts[i]) as CInt)
  }

  /** The first token and separator, and the rest of both lists. */
  lemma NumeralValuesCons(seps: seq<string>, ts: seq<string>)
    requires |seps| == |ts| > 0 && Separators(seps) && AllIntTokens(ts)
    ensures Separators(seps[1..]) && AllIntTokens(ts[1..])
    ensures NumeralValues(ts) == [NumeralValue(ts[0]) as CInt] + NumeralValues(ts[1..])
  {
    assert forall i :: 1 <= i < |ts| ==> ts[1..][i - 1] == ts[i] && seps[1..][i - 1] == seps[i];
  }

  /** Tokens after separators, then a space-led tail, make a space-led
      stream. */
  lemma JoinedSpaceLed(seps: seq<string>, ts: seq<string>, tail: string)
    requires |seps| == |ts| && Separators(seps)
    requires tail == [] || IsSpace(tail[0])
    ensures var s := Joined(seps, ts, tail); s == [] || IsSpace(s[0])
  {
    if ts != [] {
      var rest := Joined(seps[1..], ts[1..], tail);
      assert (seps[0] + ts[0] + rest)[0] == seps[0][0];
    }
  }

  /** Reading `|ts|` ints from `int` tokens separated by white space, with
      anything space-led after them, succeeds and gives the tokens' values in
      order. */
  lemma {:induction false} ReadJoinedTokens(seps: seq<string>, ts: seq<string>, tail: string)
    requires |seps| == |ts| && Separators(seps) && AllIntTokens(ts)
    requires tail == [] || IsSpace(tail[0])
    ensures HasInts(Joined(seps, ts, tail), |ts|)
    ensures ReadInts(Joined(seps, ts, tail), |ts|) == NumeralValues(ts)
    decreases |ts|
  {
    if ts != [] {
      var rest := Joined(seps[1..], ts[1..], tail);
      NumeralValuesCons(seps, ts);
      ReadJoinedTokens(seps[1..], ts[1..], tail);
      JoinedSpaceLed(seps[1..], ts[1..], tail);
      ReadTokenThen(seps[0], ts[0], rest, |ts| - 1);
    }
  }
}
