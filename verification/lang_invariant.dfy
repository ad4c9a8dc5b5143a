/** What the lang lexer's output means: every token is a lexeme of its
    category at its offset (operators the longest the lexer tries there), the
    tokens are in order, and together they spell the consumed input exactly,
    since this lexer skips nothing. Every rule that succeeds keeps this. */
module LangInvariant {
  import opened Results
  import opened Scanner
  import opened LangLexer

  /** What a token of each category looks like in the input it came from.
      No `Comma` token is ever a lexeme: no rule emits one. */
  ghost predicate Lexeme(input: string, t: Token<Category>) {
    && Spans(input, t)
    && match t.category
       case Integer => IsRun(input, t.offset, t.End(), Digits)
       case Variable => IsRun(input, t.offset, t.End(), IdentChars) && !Digits.Has(t.value[0])
       case Open => t.value == "("
       case Close => t.value == ")"
       case Comma => false
       case Prefix => t.value == PrefixText(input, t.offset)
       case Infix => t.value in InfixOperators
       case Postfix => t.value == PostfixText(input, t.offset)
  }

  ghost predicate Lexemes(input: string, ts: seq<Token<Category>>) {
    forall i :: 0 <= i < |ts| ==> Lexeme(input, ts[i])
  }

  /** The lexer's invariant: every token is a lexeme lying before the
      cursor, the tokens are in order, and together they are exactly the
      consumed input. */
  ghost predicate Valid(input: string, st: State<Category>) {
    && st.cursor <= |input|
    && Lexemes(input, st.output)
    && (forall i :: 0 <= i < |st.output| ==> st.output[i].End() <= st.cursor)
    && Ordered(st.output)
    && Texts(st.output) == input[..st.cursor]
  }

  /** `st'` is a valid state that only moved forward from `st`. */
  ghost predicate Advanced(input: string, st: State<Category>, st': State<Category>) {
    && Valid(input, st')
    && st.cursor <= st'.cursor
    && st.output <= st'.output
  }

  lemma AdvancedTrans(input: string, a: State<Category>, b: State<Category>, c: State<Category>)
    requires Advanced(input, a, b) && Advanced(input, b, c)
    ensures Advanced(input, a, c)
  {
    assert a.output == b.output[..|a.output|] == c.output[..|b.output|][..|a.output|];
  }

  lemma PushKeepsValid(input: string, st: State<Category>, t: Token<Category>)
    requires Valid(input, st)
    requires t.offset == st.cursor && Lexeme(input, t)
    ensures Advanced(input, st, State(t.End(), st.output + [t]))
  {
    var out := st.output + [t];
    TextsPush(st.output, t);
    assert input[..t.End()] == input[..st.cursor] + t.value;
    assert Lexemes(input, out) by {
      forall i | 0 <= i < |out|
        ensures Lexeme(input, out[i])
      {
        if i < |st.output| {
          assert out[i] == st.output[i];
        }
      }
    }
    assert Ordered(out);
  }

  /** A literal the input starts with at `c` spans its own text there. */
  lemma LiteralSpans(input: string, c: nat, lit: string)
    requires StartsAt(input, c, lit)
    ensures c + |lit| <= |input| && input[c..c + |lit|] == lit
  {
    assert input[c..c + |lit|] == input[c..][..|lit|];
  }

  lemma MatchKeepsValid(input: string, st: State<Category>, lit: string, category: Category)
    requires Valid(input, st)
    requires (category == Open && lit == "(") || (category == Close && lit == ")")
    ensures var m := Match(input, st, lit, category);
      m.matched ==> Advanced(input, st, m.state)
  {
    var m := Match(input, st, lit, category);
    if m.matched {
      LiteralSpans(input, st.cursor, lit);
      PushKeepsValid(input, st, Token(st.cursor, category, lit));
      assert m.state == State(st.cursor + |lit|, st.output + [Token(st.cursor, category, lit)]);
    }
  }

  lemma RegexKeepsValid(input: string, st: State<Category>, k: CharClass, category: Category)
    requires Valid(input, st)
    requires
      || (category == Integer && k == Digits)
      || (category == Variable && k == IdentChars && (st.cursor == |input| || !Digits.Has(input[st.cursor])))
    ensures var m := Regex(input, st, k, category);
      m.matched ==> Advanced(input, st, m.state)
  {
    var m := Regex(input, st, k, category);
    if m.matched {
      PushKeepsValid(input, st, Last(m.state.output));
    }
  }

  lemma PrefixKeepsValid(input: string, st: State<Category>)
    requires Valid(input, st)
    ensures var m := PrefixOp(input, st);
      m.matched ==> Advanced(input, st, m.state)
  {
    var m := PrefixOp(input, st);
    if m.matched {
      var text := PrefixText(input, st.cursor);
      assert StartsAt(input, st.cursor, text);
      LiteralSpans(input, st.cursor, text);
      var t := Token(st.cursor, Prefix, text);
      PushKeepsValid(input, st, t);
      assert m.state == State(t.End(), st.output + [t]);
    }
  }

  lemma PostfixKeepsValid(input: string, st: State<Category>)
    requires Valid(input, st)
    ensures var m := PostfixOp(input, st);
      m.matched ==> Advanced(input, st, m.state)
  {
    var m := PostfixOp(input, st);
    if m.matched {
      var text := PostfixText(input, st.cursor);
      assert StartsAt(input, st.cursor, text);
      LiteralSpans(input, st.cursor, text);
      var t := Token(st.cursor, Postfix, text);
      PushKeepsValid(input, st, t);
      assert m.state == State(t.End(), st.output + [t]);
    }
  }

  lemma InfixKeepsValid(input: string, st: State<Category>)
    requires Valid(input, st)
    ensures var m := InfixOp(input, st);
      m.matched ==> Advanced(input, st, m.state)
  {
    var m := InfixOp(input, st);
    if m.matched {
      var t := Token(st.cursor, Infix, [input[st.cursor]]);
      InfixLexeme(input, st.cursor);
      PushKeepsValid(input, st, t);
      assert m.state == State(t.End(), st.output + [t]);
    }
  }

  lemma InfixLexeme(input: string, c: nat)
    requires c < |input| && input[c] in "+-*/"
    ensures Lexeme(input, Token(c, Infix, [input[c]]))
  {
    var ch := input[c];
    assert [ch] in InfixOperators by {
      assert ch == '+' || ch == '-' || ch == '*' || ch == '/';
    }
    assert input[c..c + 1] == [ch];
  }

  lemma {:induction false} PrefixesSound(input: string, st: State<Category>)
    requires Valid(input, st)
    ensures Advanced(input, st, Prefixes(input, st))
    decreases |input| - st.cursor
  {
    var m := PrefixOp(input, st);
    PrefixKeepsValid(input, st);
    if m.matched {
      PrefixesSound(input, m.state);
      AdvancedTrans(input, st, m.state, Prefixes(input, m.state));
    }
  }

  lemma {:induction false} PostfixesSound(input: string, st: State<Category>)
    requires Valid(input, st)
    ensures Advanced(input, st, Postfixes(input, st))
    decreases |input| - st.cursor
  {
    var m := PostfixOp(input, st);
    PostfixKeepsValid(input, st);
    if m.matched {
      PostfixesSound(input, m.state);
      AdvancedTrans(input, st, m.state, Postfixes(input, m.state));
    }
  }

  lemma {:induction false} ExpressionSound(input: string, st: State<Category>)
    requires Valid(input, st)
    ensures var r := Expression(input, st);
      r.Ok? && r.value.matched ==> Advanced(input, st, r.value.state)
    decreases |input| - st.cursor, 3
  {
    TermSound(input, st);
    var t := Term(input, st);
    if t.Ok? && t.value.matched {
      TailSound(input, t.value.state);
      var e := ExpressionTail(input, t.value.state);
      if e.Ok? {
        AdvancedTrans(input, st, t.value.state, e.value);
      }
    }
  }

  lemma {:induction false} TailSound(input: string, st: State<Category>)
    requires Valid(input, st)
    ensures var r := ExpressionTail(input, st);
      r.Ok? ==> Advanced(input, st, r.value)
    decreases |input| - st.cursor, 2
  {
    var op := InfixOp(input, st);
    InfixKeepsValid(input, st);
    if op.matched {
      TermSound(input, op.state);
      var t := Term(input, op.state);
      if t.Ok? && t.value.matched {
        AdvancedTrans(input, st, op.state, t.value.state);
        TailSound(input, t.value.state);
        var e := ExpressionTail(input, t.value.state);
        if e.Ok? {
          AdvancedTrans(input, st, t.value.state, e.value);
        }
      }
    }
  }

  lemma {:induction false} TermSound(input: string, st: State<Category>)
    requires Valid(input, st)
    ensures var r := Term(input, st);
      r.Ok? && r.value.matched ==> Advanced(input, st, r.value.state)
    decreases |input| - st.cursor, 2
  {
    var p := Prefixes(input, st);
    PrefixesSound(input, st);
    ValueSound(input, p);
    var v := Value(input, p);
    if v.Ok? && v.value.matched {
      AdvancedTrans(input, st, p, v.value.state);
      PostfixesSound(input, v.value.state);
      AdvancedTrans(input, st, v.value.state, Postfixes(input, v.value.state));
    }
  }

  lemma {:induction false} ValueSound(input: string, st: State<Category>)
    requires Valid(input, st)
    ensures var r := Value(input, st);
      r.Ok? && r.value.matched ==> Advanced(input, st, r.value.state)
    decreases |input| - st.cursor, 1
  {
    var open := Match(input, st, "(", Open);
    MatchKeepsValid(input, st, "(", Open);
    if open.matched {
      ExpressionSound(input, open.state);
      var e := Expression(input, open.state);
      if e.Ok? && e.value.matched {
        AdvancedTrans(input, st, open.state, e.value.state);
        MatchKeepsValid(input, e.value.state, ")", Close);
        var close := Match(input, e.value.state, ")", Close);
        if close.matched {
          AdvancedTrans(input, st, e.value.state, close.state);
        }
      }
    } else {
      RegexKeepsValid(input, st, Digits, Integer);
      if !Regex(input, st, Digits, Integer).matched {
        RegexKeepsValid(input, st, IdentChars, Variable);
      }
    }
  }

  /** A successful `lex` spells out the whole input exactly, as a sequence
      of lexemes at strictly increasing offsets. */
  lemma LexSound(input: string)
    ensures var r := Lex(input);
      r.Ok? && r.value.Some? ==>
        && Lexemes(input, r.value.value)
        && Ordered(r.value.value)
        && Texts(r.value.value) == input
        && forall i, j :: 0 <= i < j < |r.value.value| ==> r.value.value[i].offset < r.value.value[j].offset
  {
    var s0: State<Category> := State(0, []);
    assert input[..0] == [];
    ExpressionSound(input, s0);
    var e := Expression(input, s0);
    if e.Ok? && e.value.matched && e.value.state.cursor == |input| {
      assert input[..e.value.state.cursor] == input;
    }
  }
}
