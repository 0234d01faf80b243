/** The recursive-descent parser over the lexer. */
module Keywords {
  import opened Lexers
  import opened KeywordSpec

  /** A class token: one character, escaped or not. */
  method LexClassToken(u: Unicode, l: Lexer) returns (r: Result<Class>)
    requires l.Valid()
    modifies l
    ensures l.Valid() && r == LexClass(u, old(l.Rest())) && l.Rest() == r.rest
  {
    var ch, ok := l.Read();
    if !ok {
      r := Fail(EOF, []);
    } else if ch == '\\' {
      var exactChar, ok2 := l.Read();
      if !ok2 {
        return Fail(UnexpectedEOF, []);
      }
      r := Ok(Single(exactChar), l.input[l.pos..]);
    } else if IsWord(u, ch) {
      if ToLower(u, ch) != ch {
        r := Fail(UnexpectedChar, l.input[l.pos..]);
      } else {
        r := Ok(if ToUpper(u, ch) == ch then Single(ch) else Letter(ch), l.input[l.pos..]);
      }
    } else if ch == '#' {
      r := Ok(Digits, l.input[l.pos..]);
    } else if ch == ' ' {
      r := Ok(NonWord, l.input[l.pos..]);
    } else if Reserved(ch) {
      l.Backup();
      r := Fail(UnexpectedChar, l.input[l.pos..]);
    } else {
      r := Ok(Single(ch), l.input[l.pos..]);
    }
  }

  method LexClassWithModifierToken(u: Unicode, l: Lexer) returns (r: Result<Token>)
    requires l.Valid()
    modifies l
    ensures l.Valid() && r == LexToken(u, old(l.Rest())) && l.Rest() == r.rest
  {
    hide LexClass;
    var star := l.ReadChar('*');
    if star {
      return Ok(AnyWord, l.input[l.pos..]);
    }
    var tk := LexClassToken(u, l);
    if tk.Fail? {
      return Fail(tk.error, tk.rest);
    }
    var ch, ok := l.Read();
    if !ok {
      r := Ok(Chars(tk.value, One), l.input[l.pos..]);
    } else if ch == '?' {
      r := Ok(Chars(tk.value, ZeroOrOne), l.input[l.pos..]);
    } else if ch == '+' {
      r := Ok(Chars(tk.value, OneOrMore), l.input[l.pos..]);
    } else {
      l.Backup();
      r := Ok(Chars(tk.value, One), l.input[l.pos..]);
    }
  }

  // ------------------------------------------------- one turn of the loop, branch by branch

  lemma TurnInParens(u: Unicode, s: string, groups: seq<Branch>, tokens: seq<Token>)
    ensures At(s, '(') ==> ParseFrom(u, s, true, groups, tokens) == Fail(UnexpectedChar, s)
    ensures At(s, ')') ==> ParseFrom(u, s, true, groups, tokens) == Finish(AddGroup(groups, tokens), s[1..])
  {
    hide LexToken, Finish;
  }

  lemma TurnAtGroup(u: Unicode, s: string, groups: seq<Branch>, tokens: seq<Token>)
    requires At(s, '(')
    ensures var r := ParseFrom(u, s[1..], true, [], []);
      if r.Fail? then ParseFrom(u, s, false, groups, tokens) == r
      else
        var optional := At(r.rest, '?');
        ParseFrom(u, s, false, groups, tokens) ==
          ParseFrom(u, if optional then r.rest[1..] else r.rest, false, groups, tokens + [Group(r.value, optional)])
  {
    hide LexToken, Finish;
  }

  lemma TurnAtBar(u: Unicode, s: string, parens: bool, groups: seq<Branch>, tokens: seq<Token>)
    requires At(s, '|')
    ensures ParseFrom(u, s, parens, groups, tokens) ==
      if tokens == [] then Fail(UnexpectedChar, s) else ParseFrom(u, s[1..], parens, AddGroup(groups, tokens), [])
  {
    hide LexToken, Finish;
  }

  lemma TurnAtToken(u: Unicode, s: string, parens: bool, groups: seq<Branch>, tokens: seq<Token>)
    requires !At(s, '(') && !At(s, '|') && (parens ==> !At(s, ')'))
    ensures var t := LexToken(u, s);
      ParseFrom(u, s, parens, groups, tokens) ==
        if t.Ok? then ParseFrom(u, t.rest, parens, groups, tokens + [t.value])
        else if t.error != EOF then Fail(t.error, t.rest)
        else if parens then Fail(UnexpectedEOF, t.rest)
        else Finish(AddGroup(groups, tokens), t.rest)
  {
    hide LexToken, Finish;
  }

  /** Alternatives up to the closing parenthesis, or to the end of the text. */
  method LexGroupToken(u: Unicode, l: Lexer, parens: bool) returns (r: Result<seq<Branch>>)
    requires l.Valid()
    modifies l
    ensures l.Valid() && r == ParseFrom(u, old(l.Rest()), parens, [], []) && l.Rest() == r.rest
    decreases |l.Rest()|
  {
    hide LexToken, ParseFrom;
    var groups: seq<Branch> := [];
    label outer:
    while true
      invariant l.Valid() && |l.Rest()| <= |old(l.Rest())|
      invariant ParseFrom(u, l.Rest(), parens, groups, []) == ParseFrom(u, old(l.Rest()), parens, [], [])
      decreases |l.Rest()|
    {
      ghost var before := |l.Rest()|;
      var tokens: seq<Token> := [];
      label inner:
      while true
        invariant l.Valid() && |l.Rest()| <= before <= |old(l.Rest())|
        invariant ParseFrom(u, l.Rest(), parens, groups, tokens) == ParseFrom(u, old(l.Rest()), parens, [], [])
        decreases |l.Rest()|
      {
        ghost var s := l.Rest();
        if parens {
          TurnInParens(u, s, groups, tokens);
          var open := l.ReadChar('(');
          if open {
            l.Backup();
            return Fail(UnexpectedChar, l.input[l.pos..]);
          }
          var close := l.ReadChar(')');
          if close {
            groups := AddGroup(groups, tokens);
            return Finish(groups, l.input[l.pos..]);
          }
        } else {
          var open := l.ReadChar('(');
          if open {
            TurnAtGroup(u, s, groups, tokens);
            var group := LexGroupToken(u, l, true);
            if group.Fail? {
              return group;
            }
            var optional := l.ReadChar('?');
            tokens := tokens + [Group(group.value, optional)];
            continue inner;
          }
        }
        var bar := l.ReadChar('|');
        if bar {
          TurnAtBar(u, s, parens, groups, tokens);
          if |tokens| == 0 {
            l.Backup();
            return Fail(UnexpectedChar, l.input[l.pos..]);
          }
          groups := AddGroup(groups, tokens);
          continue outer;
        }
        TurnAtToken(u, s, parens, groups, tokens);
        var token := LexClassWithModifierToken(u, l);
        if token.Fail? {
          if token.error != EOF {
            return Fail(token.error, token.rest);
          }
          if parens {
            return Fail(UnexpectedEOF, token.rest);
          }
          groups := AddGroup(groups, tokens);
          return Finish(groups, token.rest);
        }
        tokens := tokens + [token.value];
      }
    }
  }

  /** One keyword, from its first character. */
  method ParseKeyword(u: Unicode, kw: string) returns (r: Result<seq<Branch>>)
    ensures r == Parse(u, kw)
  {
    var l := new Lexer(kw);
    r := LexGroupToken(u, l, false);
  }
}
