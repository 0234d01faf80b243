/**
Parsing is the inverse of printing: the canonical text of every well-formed tree parses to
that tree, and whatever parses at all parses to a well-formed tree with no text left over.
*/
module KeywordLaws {
  import opened KeywordSpec
  import opened KeywordLanguage

  // ------------------------------------------------------------------------- round trip

  /** The canonical spelling: every single character escaped, no idle bar. */
  function CanonGlyph(k: Class): Glyph {
    match k
    case Single(c) => Escaped(c)
    case Letter(c) => Plain(c)
    case Digits => Hash
    case NonWord => Space
  }

  function Canon(t: Token): Piece
    decreases t
  {
    match t
    case AnyWord => Star
    case Chars(k, m) => Mark(CanonGlyph(k), m)
    case Group(alts, optional) => Parens(CanonAlts(alts), false, optional)
  }

  function CanonTokens(ts: seq<Token>): seq<Piece>
    decreases ts
  {
    if ts == [] then [] else [Canon(ts[0])] + CanonTokens(ts[1..])
  }

  function CanonAlts(alts: seq<Branch>): seq<Choice>
    decreases alts
  {
    if alts == [] then [] else [Choice(CanonTokens(alts[0].tokens))] + CanonAlts(alts[1..])
  }

  lemma CanonClass(u: Unicode, k: Class)
    requires ClassFormed(u, k)
    ensures GlyphOk(u, CanonGlyph(k)) && GlyphText(CanonGlyph(k)) == PrintClass(k) && GlyphClass(u, CanonGlyph(k)) == k
  {
  }

  /** The canonical spelling of a formed token is a spelling of it, and its text is the printed one. */
  lemma {:induction false} CanonSpells(u: Unicode, t: Token, parens: bool)
    requires TokenFormed(u, t, parens)
    ensures PieceOk(u, Canon(t), parens) && PieceText(Canon(t)) == PrintToken(t) && PieceToken(u, Canon(t)) == t
    decreases t
  {
    hide GlyphOk, GlyphText, GlyphClass, CanonGlyph, PrintClass, ClassFormed;
    match t
    case AnyWord =>
    case Chars(k, m) => CanonClass(u, k);
    case Group(alts, optional) =>
      CanonSpellsAlts(u, alts, true);
      var end := if optional then "?" else "";
      assert "(" + (PrintAlts(alts) + ("" + (")" + end))) == "(" + PrintAlts(alts) + ")" + end;
  }

  lemma {:induction false} CanonSpellsTokens(u: Unicode, ts: seq<Token>, parens: bool)
    requires forall i :: 0 <= i < |ts| ==> TokenFormed(u, ts[i], parens)
    ensures var ps := CanonTokens(ts);
      && |ps| == |ts| && (forall i :: 0 <= i < |ps| ==> PieceOk(u, ps[i], parens))
      && PiecesText(ps) == PrintTokens(ts) && Tokens(u, ps) == ts
    decreases ts
  {
    hide PieceOk, PieceText, PieceToken, Canon, TokenFormed, PrintToken;
    if ts != [] {
      CanonSpells(u, ts[0], parens);
      CanonSpellsTokens(u, ts[1..], parens);
      var ps := CanonTokens(ts);
      assert ps[1..] == CanonTokens(ts[1..]);
      forall i | 0 <= i < |ps| ensures PieceOk(u, ps[i], parens) {
        if i > 0 { assert ps[i] == ps[1..][i - 1]; }
      }
    }
  }

  lemma {:induction false} CanonSpellsAlts(u: Unicode, alts: seq<Branch>, parens: bool)
    requires forall i :: 0 <= i < |alts| ==> SeqFormed(u, alts[i].tokens, parens)
    ensures var cs := CanonAlts(alts);
      && |cs| == |alts| && (forall i :: 0 <= i < |cs| ==> PiecesOk(u, cs[i].pieces, parens))
      && ChoicesText(cs) == PrintAlts(alts) && Branches(u, cs) == alts
    decreases alts
  {
    hide PieceOk, PiecesText, Tokens, CanonTokens, TokenFormed, PrintTokens;
    if alts != [] {
      CanonSpellsTokens(u, alts[0].tokens, parens);
      CanonSpellsAlts(u, alts[1..], parens);
      var cs := CanonAlts(alts);
      assert cs[1..] == CanonAlts(alts[1..]);
      forall i | 0 <= i < |cs| ensures PiecesOk(u, cs[i].pieces, parens) {
        if i > 0 { assert cs[i] == cs[1..][i - 1]; }
      }
      if |alts| > 1 {
        var first := PrintTokens(alts[0].tokens);
        assert first + ("|" + PrintAlts(alts[1..])) == first + "|" + PrintAlts(alts[1..]);
      }
    }
  }

  /** The canonical text of a well-formed tree parses to that tree. */
  lemma RoundTrip(u: Unicode, alts: seq<Branch>)
    requires AltsFormed(u, alts, false)
    ensures Parse(u, PrintAlts(alts)) == Ok(alts, "")
  {
    hide Parse, PrintAlts, ChoicesText, Branches;
    CanonSpellsAlts(u, alts, false);
    SpellingParses(u, CanonAlts(alts), false);
    assert PrintAlts(alts) + BarText(false) == PrintAlts(alts);
  }

  /** Different trees have different canonical texts. */
  lemma PrintInjective(u: Unicode, a: seq<Branch>, b: seq<Branch>)
    requires AltsFormed(u, a, false) && AltsFormed(u, b, false) && PrintAlts(a) == PrintAlts(b)
    ensures a == b
  {
    RoundTrip(u, a);
    RoundTrip(u, b);
  }

  // -------------------------------------------------------------------- what is accepted

  ghost predicate SoFarFormed(u: Unicode, groups: seq<Branch>, tokens: seq<Token>, parens: bool) {
    && (forall i :: 0 <= i < |groups| ==> SeqFormed(u, groups[i].tokens, parens))
    && (forall i :: 0 <= i < |tokens| ==> TokenFormed(u, tokens[i], parens))
  }

  lemma LexTokenFormed(u: Unicode, s: string, parens: bool)
    ensures LexToken(u, s).Ok? ==> TokenFormed(u, LexToken(u, s).value, parens)
  {
  }

  lemma LexTokenStops(u: Unicode, s: string)
    ensures var r := LexToken(u, s); r.Fail? && r.error == EOF ==> s == [] && r.rest == []
  {
  }

  lemma FinishFormed(u: Unicode, groups: seq<Branch>, tokens: seq<Token>, parens: bool, rest: string)
    requires SoFarFormed(u, groups, tokens, parens)
    ensures var r := Finish(AddGroup(groups, tokens), rest); r.Ok? ==> AltsFormed(u, r.value, parens)
  {
  }

  /** Every tree the parser returns is well formed, and outside parentheses no text is left. */
  lemma {:induction false} ParseFromFormed(u: Unicode, s: string, parens: bool, groups: seq<Branch>, tokens: seq<Token>)
    requires SoFarFormed(u, groups, tokens, parens)
    ensures var r := ParseFrom(u, s, parens, groups, tokens);
      r.Ok? ==> AltsFormed(u, r.value, parens) && (!parens ==> r.rest == "")
    decreases |s|
  {
    hide LexToken, Finish, AddGroup, AltsFormed;
    FinishFormed(u, groups, tokens, parens, s);
    LexTokenFormed(u, s, parens);
    LexTokenStops(u, s);
    if parens && At(s, '(') {
    } else if parens && At(s, ')') {
      FinishFormed(u, groups, tokens, parens, s[1..]);
    } else if At(s, '(') {
      ParseFromFormed(u, s[1..], true, [], []);
      var inner := ParseFrom(u, s[1..], true, [], []);
      if inner.Ok? {
        var optional := At(inner.rest, '?');
        GroupFormed(u, inner.value, optional);
        ParseFromFormed(u, if optional then inner.rest[1..] else inner.rest, parens, groups,
            tokens + [Group(inner.value, optional)]);
      }
    } else if At(s, '|') {
      if tokens != [] { ParseFromFormed(u, s[1..], parens, groups + [Branch(tokens)], []); }
    } else if LexToken(u, s).Ok? {
      ParseFromFormed(u, LexToken(u, s).rest, parens, groups, tokens + [LexToken(u, s).value]);
    }
  }

  lemma GroupFormed(u: Unicode, alts: seq<Branch>, optional: bool)
    requires AltsFormed(u, alts, true)
    ensures TokenFormed(u, Group(alts, optional), false)
  {
  }

  /** A text that parses is read to its end, its tree is well formed, and the canonical text
      of that tree parses to the same tree. */
  lemma AcceptedIsFormed(u: Unicode, s: string)
    requires Parse(u, s).Ok?
    ensures AltsFormed(u, Parse(u, s).value, false) && Parse(u, s).rest == ""
    ensures Parse(u, PrintAlts(Parse(u, s).value)) == Parse(u, s)
  {
    ParseFromFormed(u, s, false, [], []);
    RoundTrip(u, Parse(u, s).value);
  }

  /** A trailing bar is accepted and ignored, once. */
  lemma TrailingBar(u: Unicode, alts: seq<Branch>)
    requires AltsFormed(u, alts, false)
    ensures Parse(u, PrintAlts(alts) + "|") == Ok(alts, "")
    ensures Parse(u, PrintAlts(alts) + "||") == Fail(UnexpectedChar, "|")
  {
    hide ParseFrom, PrintAlts, ChoicesText, Branches;
    CanonSpellsAlts(u, alts, false);
    var cs := CanonAlts(alts);
    SpellingParses(u, cs, true);
    ReadChoices(u, cs, "||", false, []);
    var groups, last := [] + Branches(u, cs[..|cs| - 1]), Tokens(u, cs[|cs| - 1].pieces);
    assert last != [] && "|" + "|" == "||";
    ReadBar(u, "|", false, groups, last);
    IdleBar(u, groups + [Branch(last)]);
  }

  lemma IdleBar(u: Unicode, groups: seq<Branch>)
    ensures ParseFrom(u, "|", false, groups, []) == Fail(UnexpectedChar, "|")
  {
    hide LexToken;
  }

  /** Groups do not nest: an opening parenthesis inside parentheses is refused where it stands. */
  lemma NoNesting(u: Unicode, ts: seq<Token>, k: string)
    requires forall i :: 0 <= i < |ts| ==> TokenFormed(u, ts[i], true)
    ensures Parse(u, "(" + (PrintTokens(ts) + ("(" + k))) == Fail(UnexpectedChar, "(" + k)
  {
    hide PrintTokens, LexToken, PiecesText;
    var s := "(" + (PrintTokens(ts) + ("(" + k));
    assert s[1..] == PrintTokens(ts) + ("(" + k);
    CanonSpellsTokens(u, ts, true);
    ReadPieces(u, CanonTokens(ts), "(" + k, true, [], []);
    assert [] + ts == ts;
  }

  /** What is refused after any tokens, and where: a stray closing parenthesis and an upper case
      letter as unexpected characters, a lone backslash and an unclosed or empty group as an
      unexpected end. */
  lemma Refusals(u: Unicode, ps: seq<Piece>, k: string, c: char)
    requires forall i :: 0 <= i < |ps| ==> PieceOk(u, ps[i], false)
    ensures Parse(u, PiecesText(ps) + (")" + k)) == Fail(UnexpectedChar, ")" + k)
    ensures IsWord(u, c) && ToLower(u, c) != c ==> Parse(u, PiecesText(ps) + ([c] + k)) == Fail(UnexpectedChar, k)
    ensures Parse(u, PiecesText(ps) + "\\") == Fail(UnexpectedEOF, "")
    ensures Parse(u, PiecesText(ps) + "()") == Fail(UnexpectedEOF, "")
    ensures Parse(u, PiecesText(ps) + "(") == Fail(UnexpectedEOF, "")
    ensures Parse(u, "") == Fail(UnexpectedEOF, "")
  {
    hide PiecesText, ParseFrom;
    var ts := Tokens(u, ps);
    assert [] + ts == ts;
    RefusedHere(u, ts, k, c);
    ReadPieces(u, ps, ")" + k, false, [], []);
    ReadPieces(u, ps, "\\", false, [], []);
    ReadPieces(u, ps, "()", false, [], []);
    ReadPieces(u, ps, "(", false, [], []);
    if IsWord(u, c) && ToLower(u, c) != c { ReadPieces(u, ps, [c] + k, false, [], []); }
    ReadNothing(u, [], []);
  }

  lemma RefusedHere(u: Unicode, ts: seq<Token>, k: string, c: char)
    ensures ParseFrom(u, ")" + k, false, [], ts) == Fail(UnexpectedChar, ")" + k)
    ensures IsWord(u, c) && ToLower(u, c) != c ==> ParseFrom(u, [c] + k, false, [], ts) == Fail(UnexpectedChar, k)
    ensures ParseFrom(u, "\\", false, [], ts) == Fail(UnexpectedEOF, "")
    ensures ParseFrom(u, "()", false, [], ts) == Fail(UnexpectedEOF, "")
    ensures ParseFrom(u, "(", false, [], ts) == Fail(UnexpectedEOF, "")
  {
    assert ([c] + k)[1..] == k && "()"[1..] == ")" && ")"[1..] == "" && "("[1..] == "" && "\\"[1..] == "";
    assert ParseFrom(u, ")", true, [], []) == Fail(UnexpectedEOF, "");
    assert ParseFrom(u, "", true, [], []) == Fail(UnexpectedEOF, "");
  }

  /** A group that is not closed before the end of the text is an unexpected end. */
  lemma UnclosedGroup(u: Unicode, cs: seq<Choice>, bar: bool)
    requires ChoicesOk(u, cs, true)
    ensures Parse(u, "(" + (ChoicesText(cs) + BarText(bar))) == Fail(UnexpectedEOF, "")
  {
    hide ChoicesText, ParseFrom;
    var groups, last := [] + Branches(u, cs[..|cs| - 1]), Tokens(u, cs[|cs| - 1].pieces);
    ReadChoices(u, cs, BarText(bar), true, []);
    assert last != [];
    EndInside(u, groups, last);
    if bar {
      ReadBar(u, "", true, groups, last);
      assert "|" + "" == "|";
      EndInside(u, groups + [Branch(last)], []);
    }
    OpenFails(u, ChoicesText(cs) + BarText(bar));
  }

  lemma EndInside(u: Unicode, groups: seq<Branch>, ts: seq<Token>)
    ensures ParseFrom(u, "", true, groups, ts) == Fail(UnexpectedEOF, "")
  {
  }

  lemma OpenFails(u: Unicode, inner: string)
    requires ParseFrom(u, inner, true, [], []).Fail?
    ensures ParseFrom(u, "(" + inner, false, [], []) == ParseFrom(u, inner, true, [], [])
  {
    hide LexToken;
    assert ("(" + inner)[1..] == inner;
  }

  /** The letters and digits of ASCII are word characters and nothing else of it is; its letters, and
      only they, have a case, and lower and upper case are inverse. */
  lemma AsciiCase(u: Unicode, c: char)
    requires c < 128 as char
    ensures IsWord(u, c) <==> '0' <= c <= '9' || ToUpper(u, c) != c || ToLower(u, c) != c
    ensures 'a' <= c <= 'z' <==> ToUpper(u, c) != c
    ensures 'A' <= c <= 'Z' <==> ToLower(u, c) != c
    ensures 'a' <= c <= 'z' ==> ToLower(u, ToUpper(u, c)) == c && 'A' <= ToUpper(u, c) <= 'Z'
    ensures 'A' <= c <= 'Z' ==> ToUpper(u, ToLower(u, c)) == c && 'a' <= ToLower(u, c) <= 'z'
  {
  }
}
