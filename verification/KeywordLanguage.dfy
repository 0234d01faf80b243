/**
The keyword language as text: every way to spell a tree, and that the parser accepts exactly
those spellings and reads each as its tree.
*/
module KeywordLanguage {
  import opened KeywordSpec

  // -------------------------------------------------------------------------- spellings

  /** One character class as it is written. */
  datatype Glyph = Escaped(c: char) | Plain(c: char) | Hash | Space

  /** Tokens as they are written; a group may end with an idle bar. */
  datatype Piece = Star | Mark(glyph: Glyph, mod: Modifier) | Parens(choices: seq<Choice>, bar: bool, optional: bool)
  datatype Choice = Choice(pieces: seq<Piece>)

  /** A character may stand for itself if it is not punctuation of the language and not an upper
      case letter. */
  ghost predicate GlyphOk(u: Unicode, g: Glyph) {
    g.Plain? ==>
      g.c != '\\' && if IsWord(u, g.c) then ToLower(u, g.c) == g.c else g.c !in {'(', ')', '|', '*', '?', '+', '#', ' '}
  }

  ghost predicate PieceOk(u: Unicode, p: Piece, parens: bool)
    decreases p
  {
    match p
    case Star => true
    case Mark(g, _) => GlyphOk(u, g)
    case Parens(choices, _, _) =>
      !parens && choices != [] && forall i :: 0 <= i < |choices| ==> PiecesOk(u, choices[i].pieces, true)
  }

  ghost predicate PiecesOk(u: Unicode, ps: seq<Piece>, parens: bool)
    decreases ps
  {
    ps != [] && forall i :: 0 <= i < |ps| ==> PieceOk(u, ps[i], parens)
  }

  ghost predicate ChoicesOk(u: Unicode, cs: seq<Choice>, parens: bool) {
    cs != [] && forall i :: 0 <= i < |cs| ==> PiecesOk(u, cs[i].pieces, parens)
  }

  function GlyphText(g: Glyph): string {
    match g
    case Escaped(c) => ['\\', c]
    case Plain(c) => [c]
    case Hash => "#"
    case Space => " "
  }

  function BarText(bar: bool): string { if bar then "|" else "" }

  function PieceText(p: Piece): string
    decreases p
  {
    match p
    case Star => "*"
    case Mark(g, m) => GlyphText(g) + PrintModifier(m)
    case Parens(cs, bar, optional) => "(" + (ChoicesText(cs) + (BarText(bar) + (")" + if optional then "?" else "")))
  }

  function PiecesText(ps: seq<Piece>): string
    decreases ps
  {
    if ps == [] then "" else PieceText(ps[0]) + PiecesText(ps[1..])
  }

  function ChoicesText(cs: seq<Choice>): string
    decreases cs
  {
    if cs == [] then ""
    else if |cs| == 1 then PiecesText(cs[0].pieces)
    else PiecesText(cs[0].pieces) + ("|" + ChoicesText(cs[1..]))
  }

  // ---------------------------------------------------------------------- what they spell

  /** A letter stands for itself in either case, every other character for itself alone. */
  function GlyphClass(u: Unicode, g: Glyph): Class {
    match g
    case Escaped(c) => Single(c)
    case Plain(c) => if IsWord(u, c) && ToUpper(u, c) != c then Letter(c) else Single(c)
    case Hash => Digits
    case Space => NonWord
  }

  function PieceToken(u: Unicode, p: Piece): Token
    decreases p
  {
    match p
    case Star => AnyWord
    case Mark(g, m) => Chars(GlyphClass(u, g), m)
    case Parens(cs, _, optional) => Group(Branches(u, cs), optional)
  }

  function Tokens(u: Unicode, ps: seq<Piece>): seq<Token>
    decreases ps
  {
    if ps == [] then [] else [PieceToken(u, ps[0])] + Tokens(u, ps[1..])
  }

  function Branches(u: Unicode, cs: seq<Choice>): seq<Branch>
    decreases cs
  {
    if cs == [] then [] else [Branch(Tokens(u, cs[0].pieces))] + Branches(u, cs[1..])
  }

  // ------------------------------------------------------- every spelling reads as its tree

  /** What follows cannot be taken for a modifier. */
  ghost predicate Clean(k: string) {
    k == [] || (k[0] != '?' && k[0] != '+')
  }

  lemma GlyphReads(u: Unicode, g: Glyph, rest: string)
    requires GlyphOk(u, g)
    ensures LexClass(u, GlyphText(g) + rest) == Ok(GlyphClass(u, g), rest)
    ensures var c := GlyphText(g)[0]; c != '*' && c != '(' && c != ')' && c != '|' && c != '?' && c != '+'
  {
    var s := GlyphText(g) + rest;
    if g.Escaped? {
      assert s[2..] == rest;
    } else {
      assert s[1..] == rest;
    }
  }

  lemma MarkReads(u: Unicode, g: Glyph, m: Modifier, rest: string)
    requires GlyphOk(u, g) && Clean(rest)
    ensures LexToken(u, PieceText(Mark(g, m)) + rest) == Ok(PieceToken(u, Mark(g, m)), rest)
  {
    hide LexClass, GlyphText, GlyphClass;
    GlyphReads(u, g, PrintModifier(m) + rest);
    assert PieceText(Mark(g, m)) + rest == GlyphText(g) + (PrintModifier(m) + rest);
  }

  /** No piece begins like a modifier, and only parentheses begin like punctuation. */
  lemma PieceStarts(u: Unicode, p: Piece, parens: bool)
    requires PieceOk(u, p, parens)
    ensures PieceText(p) != [] && Clean(PieceText(p))
    ensures !p.Parens? ==> PieceText(p)[0] != '(' && PieceText(p)[0] != ')' && PieceText(p)[0] != '|'
  {
    if p.Mark? { GlyphReads(u, p.glyph, ""); }
  }

  lemma PiecesStart(u: Unicode, ps: seq<Piece>, parens: bool, k: string)
    requires (forall i :: 0 <= i < |ps| ==> PieceOk(u, ps[i], parens)) && Clean(k)
    ensures Clean(PiecesText(ps) + k)
  {
    if ps == [] {
      assert PiecesText(ps) + k == k;
    } else {
      PieceStarts(u, ps[0], parens);
    }
  }

  lemma ReadLeaf(u: Unicode, p: Piece, k: string, parens: bool, groups: seq<Branch>, tokens: seq<Token>)
    requires PieceOk(u, p, parens) && !p.Parens? && Clean(k)
    ensures ParseFrom(u, PieceText(p) + k, parens, groups, tokens) ==
      ParseFrom(u, k, parens, groups, tokens + [PieceToken(u, p)])
  {
    PieceStarts(u, p, parens);
    var s := PieceText(p) + k;
    assert s[0] == PieceText(p)[0];
    if p.Star? {
      assert s[1..] == k;
    } else {
      MarkReads(u, p.glyph, p.mod, k);
    }
    assert LexToken(u, s) == Ok(PieceToken(u, p), k);
  }

  /** The closing parenthesis ends the last alternative. */
  lemma ReadClose(u: Unicode, tail: string, groups: seq<Branch>, ts: seq<Token>)
    ensures ParseFrom(u, ")" + tail, true, groups, ts) == Finish(AddGroup(groups, ts), tail)
  {
    assert (")" + tail)[1..] == tail;
  }

  /** The opening parenthesis reads a group, and a question mark after it makes it optional. */
  lemma ReadOpen(u: Unicode, inner: string, alts: seq<Branch>, optional: bool, k: string, groups: seq<Branch>,
                 tokens: seq<Token>)
    requires ParseFrom(u, inner, true, [], []) == Ok(alts, (if optional then "?" else "") + k) && Clean(k)
    ensures ParseFrom(u, "(" + inner, false, groups, tokens) ==
      ParseFrom(u, k, false, groups, tokens + [Group(alts, optional)])
  {
    hide LexToken;
    assert ("(" + inner)[1..] == inner && ("?" + k)[1..] == k && "" + k == k;
  }

  lemma ReadBar(u: Unicode, more: string, parens: bool, groups: seq<Branch>, ts: seq<Token>)
    requires ts != []
    ensures ParseFrom(u, "|" + more, parens, groups, ts) == ParseFrom(u, more, parens, groups + [Branch(ts)], [])
  {
    assert ("|" + more)[1..] == more;
  }

  lemma {:induction false} ReadParens(u: Unicode, p: Piece, k: string, groups: seq<Branch>, tokens: seq<Token>)
    requires PieceOk(u, p, false) && p.Parens? && Clean(k)
    ensures ParseFrom(u, PieceText(p) + k, false, groups, tokens) ==
      ParseFrom(u, k, false, groups, tokens + [PieceToken(u, p)])
    decreases p, 0
  {
    hide ParseFrom, ChoicesText;
    var tail := (if p.optional then "?" else "") + k;
    var inner := ChoicesText(p.choices) + (BarText(p.bar) + (")" + tail));
    assert PieceText(p) + k == "(" + inner;
    ReadChoices(u, p.choices, BarText(p.bar) + (")" + tail), true, []);
    assert [] + Branches(u, p.choices[..|p.choices| - 1]) == Branches(u, p.choices[..|p.choices| - 1]);
    ReadEnd(u, p.choices, p.bar, tail);
    ReadOpen(u, inner, Branches(u, p.choices), p.optional, k, groups, tokens);
  }

  /** The idle bar and the closing parenthesis. */
  lemma ReadEnd(u: Unicode, cs: seq<Choice>, bar: bool, tail: string)
    requires ChoicesOk(u, cs, true)
    ensures var last := Tokens(u, cs[|cs| - 1].pieces);
      ParseFrom(u, BarText(bar) + (")" + tail), true, Branches(u, cs[..|cs| - 1]), last) == Ok(Branches(u, cs), tail)
  {
    hide ParseFrom;
    var groups, last := Branches(u, cs[..|cs| - 1]), Tokens(u, cs[|cs| - 1].pieces);
    BranchesSplit(u, cs);
    assert last != [];
    ReadClose(u, tail, groups, last);
    if bar {
      ReadBar(u, ")" + tail, true, groups, last);
      ReadClose(u, tail, groups + [Branch(last)], []);
    } else {
      assert BarText(bar) + (")" + tail) == ")" + tail;
    }
  }

  lemma {:induction false} BranchesSplit(u: Unicode, cs: seq<Choice>)
    requires cs != []
    ensures Branches(u, cs) == Branches(u, cs[..|cs| - 1]) + [Branch(Tokens(u, cs[|cs| - 1].pieces))]
    decreases |cs|
  {
    if |cs| > 1 {
      BranchesSplit(u, cs[1..]);
      assert cs[1..][..|cs| - 2] == cs[..|cs| - 1][1..];
    }
  }

  lemma {:induction false} ReadPieces(u: Unicode, ps: seq<Piece>, k: string, parens: bool, groups: seq<Branch>,
                                      tokens: seq<Token>)
    requires (forall i :: 0 <= i < |ps| ==> PieceOk(u, ps[i], parens)) && Clean(k)
    ensures ParseFrom(u, PiecesText(ps) + k, parens, groups, tokens) ==
      ParseFrom(u, k, parens, groups, tokens + Tokens(u, ps))
    decreases ps
  {
    hide ParseFrom, PieceText, PieceToken;
    if ps == [] {
      assert PiecesText(ps) + k == k && tokens + Tokens(u, ps) == tokens;
    } else {
      var p, more := ps[0], PiecesText(ps[1..]) + k;
      PiecesStart(u, ps[1..], parens, k);
      assert PiecesText(ps) + k == PieceText(p) + more;
      if p.Parens? { ReadParens(u, p, more, groups, tokens); } else { ReadLeaf(u, p, more, parens, groups, tokens); }
      ReadPieces(u, ps[1..], k, parens, groups, tokens + [PieceToken(u, p)]);
      assert tokens + [PieceToken(u, p)] + Tokens(u, ps[1..]) == tokens + Tokens(u, ps);
    }
  }

  /** Reading alternatives leaves the last of them open. */
  lemma {:induction false} ReadChoices(u: Unicode, cs: seq<Choice>, k: string, parens: bool, groups: seq<Branch>)
    requires ChoicesOk(u, cs, parens) && Clean(k)
    ensures ParseFrom(u, ChoicesText(cs) + k, parens, groups, []) ==
      ParseFrom(u, k, parens, groups + Branches(u, cs[..|cs| - 1]), Tokens(u, cs[|cs| - 1].pieces))
    decreases cs
  {
    hide ParseFrom, PiecesText;
    var ps := cs[0].pieces;
    var ts := Tokens(u, ps);
    assert [] + ts == ts;
    if |cs| == 1 {
      ReadPieces(u, ps, k, parens, groups, []);
      assert groups + Branches(u, cs[..0]) == groups;
    } else {
      var more := ChoicesText(cs[1..]) + k;
      assert ChoicesText(cs) + k == PiecesText(ps) + ("|" + more);
      ReadPieces(u, ps, "|" + more, parens, groups, []);
      ReadBar(u, more, parens, groups, ts);
      ReadChoices(u, cs[1..], k, parens, groups + [Branch(ts)]);
      assert cs[1..][..|cs| - 2] == cs[..|cs| - 1][1..];
      assert groups + [Branch(ts)] + Branches(u, cs[1..][..|cs| - 2]) == groups + Branches(u, cs[..|cs| - 1]);
    }
  }

  /** Every spelling parses to its end, as the tree it spells. */
  lemma SpellingParses(u: Unicode, cs: seq<Choice>, bar: bool)
    requires ChoicesOk(u, cs, false)
    ensures Parse(u, ChoicesText(cs) + BarText(bar)) == Ok(Branches(u, cs), "")
  {
    hide ParseFrom, ChoicesText;
    var groups, last := Branches(u, cs[..|cs| - 1]), Tokens(u, cs[|cs| - 1].pieces);
    ReadChoices(u, cs, BarText(bar), false, []);
    assert [] + groups == groups && last != [];
    BranchesSplit(u, cs);
    ReadNothing(u, groups, last);
    if bar {
      ReadBar(u, "", false, groups, last);
      assert "|" + "" == "|";
      ReadNothing(u, groups + [Branch(last)], []);
    }
  }

  lemma ReadNothing(u: Unicode, groups: seq<Branch>, ts: seq<Token>)
    ensures ParseFrom(u, "", false, groups, ts) == Finish(AddGroup(groups, ts), "")
  {
  }

  // -------------------------------------------------- whatever is accepted is a spelling

  lemma SpellGlyph(u: Unicode, s: string) returns (g: Glyph)
    requires LexClass(u, s).Ok?
    ensures GlyphOk(u, g) && GlyphClass(u, g) == LexClass(u, s).value && s == GlyphText(g) + LexClass(u, s).rest
  {
    if s[0] == '\\' {
      g := Escaped(s[1]);
      assert s == [s[0], s[1]] + s[2..];
    } else {
      g := if s[0] == '#' then Hash else if s[0] == ' ' then Space else Plain(s[0]);
      assert s == [s[0]] + s[1..];
    }
  }

  lemma SpellToken(u: Unicode, s: string, parens: bool) returns (p: Piece)
    requires LexToken(u, s).Ok?
    ensures PieceOk(u, p, parens) && PieceToken(u, p) == LexToken(u, s).value && s == PieceText(p) + LexToken(u, s).rest
  {
    hide LexClass, GlyphClass, GlyphText, GlyphOk;
    if At(s, '*') {
      p := Star;
      assert s == "*" + s[1..];
    } else {
      var g := SpellGlyph(u, s);
      var rest := LexClass(u, s).rest;
      if At(rest, '?') {
        p := Mark(g, ZeroOrOne);
        assert rest == "?" + rest[1..];
      } else if At(rest, '+') {
        p := Mark(g, OneOrMore);
        assert rest == "+" + rest[1..];
      } else {
        p := Mark(g, One);
      }
      assert s == PieceText(p) + LexToken(u, s).rest;
    }
  }

  /** The text read so far from here: the rest of the open alternative, further alternatives, and
      perhaps an idle bar. */
  ghost function RestText(ps: seq<Piece>, cs: seq<Choice>, bar: bool): string {
    PiecesText(ps) + ((if cs == [] then "" else "|" + ChoicesText(cs)) + BarText(bar))
  }

  ghost function RestTree(u: Unicode, groups: seq<Branch>, tokens: seq<Token>, ps: seq<Piece>,
                          cs: seq<Choice>): seq<Branch> {
    AddGroup(groups, tokens + Tokens(u, ps)) + Branches(u, cs)
  }

  ghost predicate RestOk(u: Unicode, parens: bool, tokens: seq<Token>, ps: seq<Piece>, cs: seq<Choice>, bar: bool) {
    && (forall i :: 0 <= i < |ps| ==> PieceOk(u, ps[i], parens))
    && (forall i :: 0 <= i < |cs| ==> PiecesOk(u, cs[i].pieces, parens))
    && (tokens == [] && ps == [] ==> cs == [] && !bar)
  }

  /** One alternative before others, as text and as tree. */
  lemma JoinText(ps: seq<Piece>, cs: seq<Choice>)
    ensures ChoicesText([Choice(ps)] + cs) == PiecesText(ps) + if cs == [] then "" else "|" + ChoicesText(cs)
  {
    hide PiecesText;
    var all := [Choice(ps)] + cs;
    assert all[1..] == cs;
    if cs == [] { assert |all| == 1; }
  }

  lemma JoinTree(u: Unicode, ps: seq<Piece>, cs: seq<Choice>)
    ensures Branches(u, [Choice(ps)] + cs) == [Branch(Tokens(u, ps))] + Branches(u, cs)
  {
    hide Tokens;
    assert ([Choice(ps)] + cs)[1..] == cs;
  }

  lemma JoinOk(u: Unicode, ps: seq<Piece>, cs: seq<Choice>, parens: bool)
    requires ps != [] && (forall i :: 0 <= i < |ps| ==> PieceOk(u, ps[i], parens))
    requires forall i :: 0 <= i < |cs| ==> PiecesOk(u, cs[i].pieces, parens)
    ensures ChoicesOk(u, [Choice(ps)] + cs, parens)
  {
    hide PieceOk;
  }

  lemma SomeTokens(u: Unicode, ps: seq<Piece>)
    ensures Tokens(u, ps) == [] <==> ps == []
  {
  }

  lemma SpellNothing(u: Unicode, s: string, parens: bool, groups: seq<Branch>, tokens: seq<Token>)
    requires ParseFrom(u, s, parens, groups, tokens).Ok? && ((parens && At(s, ')')) || s == [])
    ensures var r := ParseFrom(u, s, parens, groups, tokens);
      && RestOk(u, parens, tokens, [], [], false) && r.value == RestTree(u, groups, tokens, [], []) && r.value != []
      && s == RestText([], [], false) + ((if parens then ")" else "") + r.rest)
  {
    assert tokens + [] == tokens && AddGroup(groups, tokens) + [] == AddGroup(groups, tokens);
    if s != [] { assert s == ")" + s[1..]; }
  }

  lemma PrependPiece(u: Unicode, parens: bool, groups: seq<Branch>, tokens: seq<Token>, p: Piece,
                     qs: seq<Piece>, ds: seq<Choice>, b: bool)
    requires PieceOk(u, p, parens) && RestOk(u, parens, tokens + [PieceToken(u, p)], qs, ds, b)
    ensures RestOk(u, parens, tokens, [p] + qs, ds, b)
    ensures RestTree(u, groups, tokens, [p] + qs, ds) == RestTree(u, groups, tokens + [PieceToken(u, p)], qs, ds)
    ensures RestText([p] + qs, ds, b) == PieceText(p) + RestText(qs, ds, b)
  {
    hide PieceText, PieceToken, ChoicesText;
    assert ([p] + qs)[1..] == qs;
    assert tokens + ([PieceToken(u, p)] + Tokens(u, qs)) == tokens + [PieceToken(u, p)] + Tokens(u, qs);
  }

  lemma SpellBar(u: Unicode, parens: bool, groups: seq<Branch>, tokens: seq<Token>, qs: seq<Piece>, ds: seq<Choice>,
                 b: bool)
    requires tokens != [] && RestOk(u, parens, [], qs, ds, b)
    ensures var cs, bar := if qs == [] then [] else [Choice(qs)] + ds, if qs == [] then true else b;
      && RestOk(u, parens, tokens, [], cs, bar)
      && RestTree(u, groups, tokens, [], cs) == RestTree(u, groups + [Branch(tokens)], [], qs, ds)
      && RestText([], cs, bar) == "|" + RestText(qs, ds, b)
  {
    hide PieceOk, Tokens, PiecesText, ChoicesText, Branches, RestText, RestTree;
    BarWritten(u, parens, qs, ds, b);
    BarTree(u, parens, groups, tokens, qs, ds, b);
    NothingSpelled(u);
    if qs != [] { JoinOk(u, qs, ds, parens); }
  }

  lemma BarWritten(u: Unicode, parens: bool, qs: seq<Piece>, ds: seq<Choice>, b: bool)
    requires RestOk(u, parens, [], qs, ds, b)
    ensures var cs, bar := if qs == [] then [] else [Choice(qs)] + ds, if qs == [] then true else b;
      RestText([], cs, bar) == "|" + RestText(qs, ds, b)
  {
    hide PieceOk, Tokens, PiecesText, ChoicesText, Branches;
    NothingSpelled(u);
    if qs != [] { JoinText(qs, ds); }
  }

  lemma BarTree(u: Unicode, parens: bool, groups: seq<Branch>, tokens: seq<Token>, qs: seq<Piece>, ds: seq<Choice>,
                b: bool)
    requires tokens != [] && RestOk(u, parens, [], qs, ds, b)
    ensures var cs := if qs == [] then [] else [Choice(qs)] + ds;
      RestTree(u, groups, tokens, [], cs) == RestTree(u, groups + [Branch(tokens)], [], qs, ds)
  {
    hide PieceOk, Tokens, PiecesText, ChoicesText, Branches;
    NothingSpelled(u);
    SomeTokens(u, qs);
    assert tokens + [] == tokens && [] + Tokens(u, qs) == Tokens(u, qs);
    if qs != [] { JoinTree(u, qs, ds); }
  }

  lemma NothingSpelled(u: Unicode)
    ensures PiecesText([]) == "" && ChoicesText([]) == "" && Tokens(u, []) == [] && Branches(u, []) == []
  {
  }

  lemma AtToken(u: Unicode, s: string, parens: bool, groups: seq<Branch>, tokens: seq<Token>)
    requires ParseFrom(u, s, parens, groups, tokens).Ok?
    requires s != [] && !At(s, '(') && !At(s, '|') && !(parens && At(s, ')'))
    ensures var t := LexToken(u, s);
      t.Ok? && ParseFrom(u, s, parens, groups, tokens) == ParseFrom(u, t.rest, parens, groups, tokens + [t.value])
  {
    NotAtEnd(u, s);
  }

  lemma NotAtEnd(u: Unicode, s: string)
    ensures LexToken(u, s).Fail? && LexToken(u, s).error == EOF ==> s == []
  {
  }

  lemma AtGroup(u: Unicode, s: string, parens: bool, groups: seq<Branch>, tokens: seq<Token>)
    requires ParseFrom(u, s, parens, groups, tokens).Ok? && At(s, '(')
    ensures !parens && ParseFrom(u, s[1..], true, [], []).Ok?
    ensures var inner := ParseFrom(u, s[1..], true, [], []);
      var optional := At(inner.rest, '?');
      ParseFrom(u, s, parens, groups, tokens) ==
        ParseFrom(u, if optional then inner.rest[1..] else inner.rest, parens, groups,
                  tokens + [Group(inner.value, optional)])
  {
    hide LexToken, Finish;
  }

  /** A group from what was read inside it. */
  lemma MakeGroup(u: Unicode, ps: seq<Piece>, cs: seq<Choice>, bar: bool, optional: bool) returns (p: Piece)
    requires RestOk(u, true, [], ps, cs, bar) && RestTree(u, [], [], ps, cs) != []
    ensures PieceOk(u, p, false) && PieceToken(u, p) == Group(RestTree(u, [], [], ps, cs), optional)
    ensures PieceText(p) == "(" + (RestText(ps, cs, bar) + (")" + if optional then "?" else ""))
  {
    hide Tokens, PiecesText, ChoicesText, Branches;
    NothingSpelled(u);
    SomeTokens(u, ps);
    assert [] + Tokens(u, ps) == Tokens(u, ps);
    JoinText(ps, cs);
    JoinTree(u, ps, cs);
    JoinOk(u, ps, cs, true);
    p := Parens([Choice(ps)] + cs, bar, optional);
    var end := ")" + if optional then "?" else "";
    assert ChoicesText([Choice(ps)] + cs) + (BarText(bar) + end) == RestText(ps, cs, bar) + end;
  }

  /** Whatever the parser reads from here is spelled there. */
  lemma {:induction false} Spell(u: Unicode, s: string, parens: bool, groups: seq<Branch>, tokens: seq<Token>)
    returns (ps: seq<Piece>, cs: seq<Choice>, bar: bool)
    requires ParseFrom(u, s, parens, groups, tokens).Ok?
    ensures var r := ParseFrom(u, s, parens, groups, tokens);
      && RestOk(u, parens, tokens, ps, cs, bar) && r.value == RestTree(u, groups, tokens, ps, cs) && r.value != []
      && s == RestText(ps, cs, bar) + ((if parens then ")" else "") + r.rest)
    decreases |s|, 1
  {
    hide LexToken, PieceText, PieceToken, Finish, RestText, RestTree, RestOk, ParseFrom;
    if (parens && At(s, ')')) || s == [] {
      ps, cs, bar := [], [], false;
      SpellNothing(u, s, parens, groups, tokens);
    } else if At(s, '(') {
      ps, cs, bar := SpellGroup(u, s, parens, groups, tokens);
    } else if At(s, '|') {
      AtBar(u, s, parens, groups, tokens);
      var qs, ds, b := Spell(u, s[1..], parens, groups + [Branch(tokens)], []);
      ps, cs, bar := [], if qs == [] then [] else [Choice(qs)] + ds, if qs == [] then true else b;
      SpellBar(u, parens, groups, tokens, qs, ds, b);
      assert s == "|" + s[1..];
    } else {
      AtToken(u, s, parens, groups, tokens);
      var p := SpellToken(u, s, parens);
      var t := LexToken(u, s);
      var qs, ds, b := Spell(u, t.rest, parens, groups, tokens + [t.value]);
      ps, cs, bar := [p] + qs, ds, b;
      PrependPiece(u, parens, groups, tokens, p, qs, ds, b);
    }
  }

  lemma AtBar(u: Unicode, s: string, parens: bool, groups: seq<Branch>, tokens: seq<Token>)
    requires ParseFrom(u, s, parens, groups, tokens).Ok? && At(s, '|')
    ensures tokens != []
    ensures ParseFrom(u, s, parens, groups, tokens) == ParseFrom(u, s[1..], parens, groups + [Branch(tokens)], [])
  {
    hide LexToken;
  }

  lemma {:induction false} SpellGroup(u: Unicode, s: string, parens: bool, groups: seq<Branch>, tokens: seq<Token>)
    returns (ps: seq<Piece>, cs: seq<Choice>, bar: bool)
    requires ParseFrom(u, s, parens, groups, tokens).Ok? && At(s, '(')
    ensures var r := ParseFrom(u, s, parens, groups, tokens);
      && RestOk(u, parens, tokens, ps, cs, bar) && r.value == RestTree(u, groups, tokens, ps, cs) && r.value != []
      && s == RestText(ps, cs, bar) + ((if parens then ")" else "") + r.rest)
    decreases |s|, 0
  {
    hide LexToken, PieceText, PieceToken, Finish, RestText, RestTree, RestOk, ParseFrom;
    AtGroup(u, s, parens, groups, tokens);
    var inner := ParseFrom(u, s[1..], true, [], []);
    var inPieces, inChoices, idle := Spell(u, s[1..], true, [], []);
    var optional := At(inner.rest, '?');
    var p := MakeGroup(u, inPieces, inChoices, idle, optional);
    var next := if optional then inner.rest[1..] else inner.rest;
    var mark := if optional then "?" else "";
    assert inner.rest == mark + next;
    var qs, ds, b := Spell(u, next, parens, groups, tokens + [PieceToken(u, p)]);
    ps, cs, bar := [p] + qs, ds, b;
    PrependPiece(u, parens, groups, tokens, p, qs, ds, b);
    GroupSplits(s, RestText(inPieces, inChoices, idle), inner.rest, mark, next, PieceText(p));
  }

  lemma GroupSplits(s: string, inside: string, after: string, mark: string, next: string, text: string)
    requires At(s, '(') && s[1..] == inside + (")" + after) && after == mark + next
    requires text == "(" + (inside + (")" + mark))
    ensures s == text + next
  {
    assert s == "(" + s[1..];
  }

  /** The texts that parse are exactly the spellings, and each parses as the tree it spells. */
  ghost predicate Spells(u: Unicode, s: string, alts: seq<Branch>, cs: seq<Choice>, bar: bool) {
    ChoicesOk(u, cs, false) && s == ChoicesText(cs) + BarText(bar) && alts == Branches(u, cs)
  }

  lemma LanguageExactly(u: Unicode, s: string, alts: seq<Branch>)
    ensures Parse(u, s) == Ok(alts, "") <==> exists cs, bar :: Spells(u, s, alts, cs, bar)
  {
    hide ParseFrom, ChoicesText, Branches;
    if Parse(u, s) == Ok(alts, "") {
      var ps, cs, bar := Spell(u, s, false, [], []);
      SpelledWhole(u, s, alts, ps, cs, bar);
    }
    if cs, bar :| Spells(u, s, alts, cs, bar) {
      SpellingParses(u, cs, bar);
    }
  }

  lemma SpelledWhole(u: Unicode, s: string, alts: seq<Branch>, ps: seq<Piece>, cs: seq<Choice>, bar: bool)
    requires RestOk(u, false, [], ps, cs, bar) && alts == RestTree(u, [], [], ps, cs) && alts != []
    requires s == RestText(ps, cs, bar) + ("" + "")
    ensures Spells(u, s, alts, [Choice(ps)] + cs, bar)
  {
    hide Tokens, PiecesText, ChoicesText, Branches, PieceOk;
    NothingSpelled(u);
    SomeTokens(u, ps);
    assert [] + Tokens(u, ps) == Tokens(u, ps);
    JoinText(ps, cs);
    JoinTree(u, ps, cs);
    JoinOk(u, ps, cs, false);
    assert s == ChoicesText([Choice(ps)] + cs) + BarText(bar);
  }
}
