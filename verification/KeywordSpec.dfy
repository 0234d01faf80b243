/**
The keyword language: its trees, its canonical text, and what parsing a text yields.
*/
module KeywordSpec {

  /** Letters, digits and case beyond ASCII. */
  datatype Unicode = Unicode(isWord: char -> bool, lower: char -> char, upper: char -> char)

  predicate IsWord(u: Unicode, c: char) {
    if c < 128 as char then 'a' <= c <= 'z' || 'A' <= c <= 'Z' || '0' <= c <= '9' else u.isWord(c)
  }

  function ToLower(u: Unicode, c: char): char {
    if c < 128 as char then (if 'A' <= c <= 'Z' then (c as int + 32) as char else c) else u.lower(c)
  }

  function ToUpper(u: Unicode, c: char): char {
    if c < 128 as char then (if 'a' <= c <= 'z' then (c as int - 32) as char else c) else u.upper(c)
  }

  /** One character exactly, a letter in either case, a digit, anything but letter or digit. */
  datatype Class = Single(c: char) | Letter(c: char) | Digits | NonWord
  datatype Modifier = One | ZeroOrOne | OneOrMore

  /** A group holds alternatives, each a sequence of tokens. */
  datatype Token = AnyWord | Chars(kind: Class, mod: Modifier) | Group(alts: seq<Branch>, optional: bool)
  datatype Branch = Branch(tokens: seq<Token>)

  datatype Error = EOF | UnexpectedEOF | UnexpectedChar

  /** The value read, or why not; and the text not yet consumed. */
  datatype Result<+T> = Ok(value: T, rest: string) | Fail(error: Error, rest: string)

  // ----------------------------------------------------------------------------- parsing

  predicate Reserved(c: char) {
    c == '(' || c == ')' || c == '|' || c == '*' || c == '?' || c == '+' || c == '#' || c == ' '
  }

  predicate At(s: string, c: char) {
    s != [] && s[0] == c
  }

  function LexClass(u: Unicode, s: string): (r: Result<Class>)
    ensures |r.rest| <= |s| && (r.Ok? ==> |r.rest| < |s|)
  {
    if s == [] then Fail(EOF, s)
    else
      var ch := s[0];
      if ch == '\\' then
        if |s| == 1 then Fail(UnexpectedEOF, s[1..]) else Ok(Single(s[1]), s[2..])
      else if IsWord(u, ch) then
        if ToLower(u, ch) != ch then Fail(UnexpectedChar, s[1..])
        else Ok(if ToUpper(u, ch) == ch then Single(ch) else Letter(ch), s[1..])
      else if ch == '#' then Ok(Digits, s[1..])
      else if ch == ' ' then Ok(NonWord, s[1..])
      else if Reserved(ch) then Fail(UnexpectedChar, s)
      else Ok(Single(ch), s[1..])
  }

  function LexToken(u: Unicode, s: string): (r: Result<Token>)
    ensures |r.rest| <= |s| && (r.Ok? ==> |r.rest| < |s|)
  {
    if At(s, '*') then Ok(AnyWord, s[1..])
    else
      match LexClass(u, s)
      case Fail(e, rest) => Fail(e, rest)
      case Ok(k, rest) =>
        if At(rest, '?') then Ok(Chars(k, ZeroOrOne), rest[1..])
        else if At(rest, '+') then Ok(Chars(k, OneOrMore), rest[1..])
        else Ok(Chars(k, One), rest)
  }

  function AddGroup(groups: seq<Branch>, tokens: seq<Token>): seq<Branch> {
    if tokens == [] then groups else groups + [Branch(tokens)]
  }

  function Finish(groups: seq<Branch>, rest: string): Result<seq<Branch>> {
    if groups == [] then Fail(UnexpectedEOF, rest) else Ok(groups, rest)
  }

  /** Continue reading alternatives: those finished, and the tokens of the one being read. */
  function ParseFrom(u: Unicode, s: string, parens: bool, groups: seq<Branch>,
      tokens: seq<Token>): (r: Result<seq<Branch>>)
    ensures |r.rest| <= |s| && (r.Ok? && parens ==> |r.rest| < |s|)
    decreases |s|
  {
    if parens && At(s, '(') then Fail(UnexpectedChar, s)
    else if parens && At(s, ')') then Finish(AddGroup(groups, tokens), s[1..])
    else if At(s, '(') then
      match ParseFrom(u, s[1..], true, [], [])
      case Fail(e, rest) => Fail(e, rest)
      case Ok(alts, rest) =>
        if At(rest, '?') then ParseFrom(u, rest[1..], parens, groups, tokens + [Group(alts, true)])
        else ParseFrom(u, rest, parens, groups, tokens + [Group(alts, false)])
    else if At(s, '|') then
      if tokens == [] then Fail(UnexpectedChar, s) else ParseFrom(u, s[1..], parens, groups + [Branch(tokens)], [])
    else
      match LexToken(u, s)
      case Ok(t, rest) => ParseFrom(u, rest, parens, groups, tokens + [t])
      case Fail(e, rest) =>
        if e != EOF then Fail(e, rest)
        else if parens then Fail(UnexpectedEOF, rest)
        else Finish(AddGroup(groups, tokens), rest)
  }

  function Parse(u: Unicode, s: string): Result<seq<Branch>> {
    ParseFrom(u, s, false, [], [])
  }

  // ---------------------------------------------------------------------- canonical text

  function PrintClass(k: Class): string {
    match k
    case Single(c) => ['\\', c]
    case Letter(c) => [c]
    case Digits => "#"
    case NonWord => " "
  }

  function PrintModifier(m: Modifier): string {
    match m
    case One => ""
    case ZeroOrOne => "?"
    case OneOrMore => "+"
  }

  function PrintToken(t: Token): string
    decreases t
  {
    match t
    case AnyWord => "*"
    case Chars(k, m) => PrintClass(k) + PrintModifier(m)
    case Group(alts, optional) => "(" + PrintAlts(alts) + ")" + if optional then "?" else ""
  }

  function PrintTokens(ts: seq<Token>): string
    decreases ts
  {
    if ts == [] then "" else PrintToken(ts[0]) + PrintTokens(ts[1..])
  }

  function PrintAlts(alts: seq<Branch>): string
    decreases alts
  {
    if alts == [] then ""
    else if |alts| == 1 then PrintTokens(alts[0].tokens)
    else PrintTokens(alts[0].tokens) + "|" + PrintAlts(alts[1..])
  }

  // ------------------------------------------------------------------ well-formed trees

  ghost predicate ClassFormed(u: Unicode, k: Class) {
    k.Letter? ==> IsWord(u, k.c) && ToLower(u, k.c) == k.c && ToUpper(u, k.c) != k.c
  }

  /** Letters are lower case with an upper case; groups are not empty and do not nest. */
  ghost predicate TokenFormed(u: Unicode, t: Token, parens: bool)
    decreases t
  {
    match t
    case AnyWord => true
    case Chars(k, _) => ClassFormed(u, k)
    case Group(alts, _) => !parens && alts != [] && forall i :: 0 <= i < |alts| ==> SeqFormed(u, alts[i].tokens, true)
  }

  ghost predicate SeqFormed(u: Unicode, ts: seq<Token>, parens: bool)
    decreases ts
  {
    ts != [] && forall i :: 0 <= i < |ts| ==> TokenFormed(u, ts[i], parens)
  }

  ghost predicate AltsFormed(u: Unicode, alts: seq<Branch>, parens: bool) {
    alts != [] && forall i :: 0 <= i < |alts| ==> SeqFormed(u, alts[i].tokens, parens)
  }
}
