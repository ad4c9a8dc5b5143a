/** What the calc lexer's output means: every token is a lexeme of its
    category lying at its offset, the tokens are in order, and together they
    spell the consumed input without its blanks; every error is `Located`,
    that is, of a kind that may point where it does (the exact offsets are
    proved in CalcProperties). Each rule keeps this, which is proved by
    a family of lemmas that follow the rules' own mutual recursion. */
module CalcInvariant {
  import opened Results
  import opened Scanner
  import opened CalcLexer

  /** What a token of each category looks like in the input it came from:
      integers and identifiers are maximal runs, identifiers never start
      with a digit, and the rest are the fixed punctuation and operators. */
  ghost predicate Lexeme(input: string, t: Token<Category>) {
    && Spans(input, t)
    && match t.category
       case Integer => IsRun(input, t.offset, t.End(), Digits)
       case Variable => IsRun(input, t.offset, t.End(), IdentChars) && !Digits.Has(t.value[0])
       case Invoke => IsRun(input, t.offset, t.End(), IdentChars) && !Digits.Has(t.value[0])
       case Open => t.value == "("
       case Close => t.value == ")"
       case Comma => t.value == ","
       case Prefix => t.value == "-"
       case Infix => t.value in InfixOperators
  }

  ghost predicate Lexemes(input: string, ts: seq<Token<Category>>) {
    forall i :: 0 <= i < |ts| ==> Lexeme(input, ts[i])
  }

  /** The lexer's invariant: every token is a lexeme lying before the cursor,
      the tokens are in order, and together they are the consumed input
      without its blanks. */
  ghost predicate Valid(input: string, st: State<Category>) {
    && st.cursor <= |input|
    && Lexemes(input, st.output)
    && (forall i :: 0 <= i < |st.output| ==> st.output[i].End() <= st.cursor)
    && Ordered(st.output)
    && Texts(st.output) == Strip(input[..st.cursor])
  }

  /** `st'` is a valid state that only moved forward from `st`: the cursor
      did not go back and the tokens of `st` are still there. */
  ghost predicate Advanced(input: string, st: State<Category>, st': State<Category>) {
    && Valid(input, st')
    && st.cursor <= st'.cursor
    && st.output <= st'.output
  }

  /** Where the run of blanks ending at `o` starts: everything from `j` to
      `o` is blank and the character before `j`, if any, is not. */
  function BlankStart(s: string, o: nat): (j: nat)
    requires o <= |s|
    ensures j <= o
    ensures forall m :: j <= m < o ==> Blanks.Has(s[m])
    ensures j == 0 || !Blanks.Has(s[j - 1])
  {
    if o > 0 && Blanks.Has(s[o - 1]) then BlankStart(s, o - 1) else o
  }

  /** `o` is just past an infix operator and the blanks after it. */
  ghost predicate FollowsInfix(input: string, o: nat)
    requires o <= |input|
  {
    var j := BlankStart(input, o);
    0 < j && input[j - 1] in "+-*/="
  }

  /** Where an error may point, by kind: a missing `)` at some `(`; a
      missing expression at some `(` or `,`, or just past an infix operator
      and its blanks; trailing input inside the input. Which `(` or `,` it
      is, is not said here. */
  ghost predicate Located(input: string, e: LexError) {
    && e.offset <= |input|
    && if e.message == MissingParenthesis then
         e.offset < |input| && input[e.offset] == '('
       else if e.message == ExpectedExpression then
         (e.offset < |input| && input[e.offset] in "(,") || FollowsInfix(input, e.offset)
       else
         e.message == InvalidSyntax && e.offset < |input|
  }

  /** A rule's outcome from `st` is sound: a valid state further on, or a
      located error. */
  ghost predicate Sound(input: string, st: State<Category>, r: Result<Step<Category>, LexError>) {
    && (r.Ok? ==> Advanced(input, st, r.value.state))
    && (r.Err? ==> Located(input, r.error))
  }

  ghost predicate SoundState(input: string, st: State<Category>, r: Result<State<Category>, LexError>) {
    && (r.Ok? ==> Advanced(input, st, r.value))
    && (r.Err? ==> Located(input, r.error))
  }

  lemma AdvancedTrans(input: string, a: State<Category>, b: State<Category>, c: State<Category>)
    requires Advanced(input, a, b) && Advanced(input, b, c)
    ensures Advanced(input, a, c)
  {
    assert a.output == b.output[..|a.output|] == c.output[..|b.output|][..|a.output|];
  }

  lemma LexemeHasNoBlanks(input: string, t: Token<Category>)
    requires Lexeme(input, t)
    ensures forall i :: 0 <= i < |t.value| ==> !Blanks.Has(t.value[i])
  {
    forall i | 0 <= i < |t.value|
      ensures !Blanks.Has(t.value[i])
    {
      assert t.value[i] == input[t.offset + i];
      match t.category
      case Integer =>
      case Variable =>
      case Invoke =>
      case Open =>
      case Close =>
      case Comma =>
      case Prefix =>
      case Infix => assert t.value in InfixOperators;
    }
  }

  lemma PushKeepsText(input: string, st: State<Category>, t: Token<Category>)
    requires st.cursor <= |input| && Texts(st.output) == Strip(input[..st.cursor])
    requires t.offset == st.cursor && Spans(input, t)
    requires forall i :: 0 <= i < |t.value| ==> !Blanks.Has(t.value[i])
    ensures Texts(st.output + [t]) == Strip(input[..t.End()])
  {
    StripNoBlanks(t.value);
    PrefixSplit(input, st.cursor, t.End());
    StripAppend(input[..st.cursor], t.value);
    TextsPush(st.output, t);
  }

  lemma PushKeepsValid(input: string, st: State<Category>, t: Token<Category>)
    requires Valid(input, st)
    requires t.offset == st.cursor && Lexeme(input, t)
    ensures Advanced(input, st, State(t.End(), st.output + [t]))
  {
    var out := st.output + [t];
    LexemeHasNoBlanks(input, t);
    PushKeepsText(input, st, t);
    assert Lexemes(input, out) by {
      forall i | 0 <= i < |out|
        ensures Lexeme(input, out[i])
      {
        if i < |st.output| {
          assert out[i] == st.output[i];
        }
      }
    }
    assert Ordered(out);
  }

  /** The punctuation and operators `_match` is asked for. */
  predicate Literal(category: Category, lit: string) {
    || (category == Open && lit == "(")
    || (category == Close && lit == ")")
    || (category == Comma && lit == ",")
    || (category == Prefix && lit == "-")
    || (category == Infix && lit in InfixOperators)
  }

  lemma MatchKeepsValid(input: string, st: State<Category>, lit: string, category: Category)
    requires Valid(input, st) && Literal(category, lit)
    ensures var m := Match(input, st, lit, category);
      m.matched ==> Advanced(input, st, m.state)
  {
    var m := Match(input, st, lit, category);
    if m.matched {
      var t := Token(st.cursor, category, lit);
      assert m.state == State(t.End(), st.output + [t]);
      assert Lexeme(input, t);
      PushKeepsValid(input, st, t);
    }
  }

  lemma RegexKeepsValid(input: string, st: State<Category>, k: CharClass, category: Category)
    requires Valid(input, st)
    requires
      || (category == Integer && k == Digits)
      || ((category == Variable || category == Invoke) && k == IdentChars
          && (st.cursor == |input| || !Digits.Has(input[st.cursor])))
    ensures var m := Regex(input, st, k, category);
      m.matched ==> Advanced(input, st, m.state)
  {
    var m := Regex(input, st, k, category);
    if m.matched {
      PushKeepsValid(input, st, Last(m.state.output));
    }
  }

  lemma InfixKeepsValid(input: string, st: State<Category>)
    requires Valid(input, st)
    ensures var m := InfixOp(input, st);
      m.matched ==> Advanced(input, st, m.state)
  {
    var m := InfixOp(input, st);
    if m.matched {
      var t := Token(st.cursor, Infix, [input[st.cursor]]);
      InfixLexeme(input, st.cursor);
      PushKeepsValid(input, st, t);
      assert m.state == State(t.End(), st.output + [t]);
    }
  }

  lemma InfixLexeme(input: string, c: nat)
    requires c < |input| && input[c] in "+-*/="
    ensures Lexeme(input, Token(c, Infix, [input[c]]))
  {
    var ch := input[c];
    assert [ch] in InfixOperators by {
      assert ch == '+' || ch == '-' || ch == '*' || ch == '/' || ch == '=';
    }
    assert input[c..c + 1] == [ch];
  }

  /** Skipping blanks adds nothing to the stripped text. */
  lemma SkipKeepsText(input: string, c: nat, j: nat)
    requires c <= j <= |input|
    requires forall m :: c <= m < j ==> Blanks.Has(input[m])
    ensures Strip(input[..j]) == Strip(input[..c])
  {
    var gap := input[c..j];
    assert forall m :: 0 <= m < |gap| ==> Blanks.Has(gap[m]);
    StripBlanks(gap);
    PrefixSplit(input, c, j);
    StripAppend(input[..c], gap);
  }

  lemma SkipKeepsValid(input: string, st: State<Category>)
    requires Valid(input, st)
    ensures Advanced(input, st, Whitespace(input, st))
  {
    SkipKeepsText(input, st.cursor, Whitespace(input, st).cursor);
  }

  /** The prefix loop only appends `Prefix` tokens. */
  lemma {:induction false} PrefixesSound(input: string, st: State<Category>)
    requires Valid(input, st)
    ensures var r := Prefixes(input, st);
      && Advanced(input, st, r)
      && forall i :: |st.output| <= i < |r.output| ==> r.output[i].category == Prefix
    decreases |input| - st.cursor
  {
    var m := Match(input, st, "-", Prefix);
    MatchKeepsValid(input, st, "-", Prefix);
    if m.matched {
      PrefixesSound(input, m.state);
      AdvancedTrans(input, st, m.state, Prefixes(input, m.state));
    }
  }

  lemma {:induction false} ExpressionSound(input: string, st: State<Category>)
    requires Valid(input, st)
    ensures Sound(input, st, Expression(input, st))
    decreases |input| - st.cursor, 3
  {
    var st1 := Whitespace(input, st);
    SkipKeepsValid(input, st);
    TermSound(input, st1);
    var t := Term(input, st1);
    if t.Ok? {
      AdvancedTrans(input, st, st1, t.value.state);
      if t.value.matched {
        var st2 := Whitespace(input, t.value.state);
        SkipKeepsValid(input, t.value.state);
        AdvancedTrans(input, st, t.value.state, st2);
        TailSound(input, st2);
        var e := ExpressionTail(input, st2);
        if e.Ok? {
          AdvancedTrans(input, st, st2, e.value);
        }
      }
    }
  }

  lemma {:induction false} TailSound(input: string, st: State<Category>)
    requires Valid(input, st)
    ensures SoundState(input, st, ExpressionTail(input, st))
    decreases |input| - st.cursor, 2
  {
    var op := InfixOp(input, st);
    InfixKeepsValid(input, st);
    if op.matched {
      var st1 := Whitespace(input, op.state);
      SkipKeepsValid(input, op.state);
      AdvancedTrans(input, st, op.state, st1);
      TermSound(input, st1);
      var t := Term(input, st1);
      if t.Ok? {
        if !t.value.matched {
          AfterInfixLocated(input, st.cursor, st1.cursor);
        } else {
          AdvancedTrans(input, st, st1, t.value.state);
          var st2 := Whitespace(input, t.value.state);
          SkipKeepsValid(input, t.value.state);
          AdvancedTrans(input, st, t.value.state, st2);
          TailSound(input, st2);
          var e := ExpressionTail(input, st2);
          if e.Ok? {
            AdvancedTrans(input, st, st2, e.value);
          }
        }
      }
    }
  }

  lemma {:induction false} TermSound(input: string, st: State<Category>)
    requires Valid(input, st)
    ensures Sound(input, st, Term(input, st))
    decreases |input| - st.cursor, 2
  {
    var p := Prefixes(input, st);
    PrefixesSound(input, st);
    var w := Whitespace(input, p);
    SkipKeepsValid(input, p);
    AdvancedTrans(input, st, p, w);
    ValueSound(input, w);
    var v := Value(input, w);
    if v.Ok? && v.value.matched {
      AdvancedTrans(input, st, w, v.value.state);
    }
  }

  lemma {:induction false} ValueSound(input: string, st: State<Category>)
    requires Valid(input, st)
    ensures Sound(input, st, Value(input, st))
    decreases |input| - st.cursor, 1
  {
    var open := Match(input, st, "(", Open);
    MatchKeepsValid(input, st, "(", Open);
    if open.matched {
      StartsAtChar(input, st.cursor, '(');
      GroupSound(input, open.state);
      var g := Group(input, open.state);
      if g.Ok? {
        AdvancedTrans(input, st, open.state, g.value.state);
      }
    } else {
      RegexKeepsValid(input, st, Digits, Integer);
      var integer := Regex(input, st, Digits, Integer);
      if !integer.matched {
        var invoke := Regex(input, st, IdentChars, Invoke);
        RegexKeepsValid(input, st, IdentChars, Invoke);
        if invoke.matched {
          CallSound(input, st, invoke.state);
        }
      }
    }
  }

  lemma {:induction false} GroupSound(input: string, st: State<Category>)
    requires Valid(input, st) && 0 < |st.output| && Last(st.output).offset <= st.cursor
    requires Last(st.output).offset < |input| && input[Last(st.output).offset] == '('
    ensures Sound(input, st, Group(input, st))
    decreases |input| - st.cursor, 4
  {
    ExpressionSound(input, st);
    var e := Expression(input, st);
    if e.Ok? && e.value.matched {
      MatchKeepsValid(input, e.value.state, ")", Close);
      var c := Match(input, e.value.state, ")", Close);
      if c.matched {
        AdvancedTrans(input, st, e.value.state, c.state);
      }
    }
  }

  lemma {:induction false} CallSound(input: string, backup: State<Category>, st: State<Category>)
    requires Valid(input, backup) && Advanced(input, backup, st) && backup.cursor < st.cursor
    requires IdentChars.Has(input[backup.cursor]) && !Digits.Has(input[backup.cursor])
    ensures Sound(input, backup, Call(input, backup, st))
    decreases |input| - st.cursor, 0
  {
    var ws := Whitespace(input, st);
    SkipKeepsValid(input, st);
    AdvancedTrans(input, backup, st, ws);
    var open := Match(input, ws, "(", Open);
    MatchKeepsValid(input, ws, "(", Open);
    if open.matched {
      StartsAtChar(input, ws.cursor, '(');
      AdvancedTrans(input, backup, ws, open.state);
      ArgumentsSound(input, open.state);
      var args := Arguments(input, open.state);
      if args.Ok? {
        AdvancedTrans(input, backup, open.state, args.value.state);
        MatchKeepsValid(input, args.value.state, ")", Close);
        var c := Match(input, args.value.state, ")", Close);
        if c.matched {
          AdvancedTrans(input, backup, args.value.state, c.state);
        }
      }
    } else {
      RegexKeepsValid(input, backup, IdentChars, Variable);
    }
  }

  lemma {:induction false} ArgumentsSound(input: string, st: State<Category>)
    requires Valid(input, st)
    ensures Sound(input, st, Arguments(input, st))
    decreases |input| - st.cursor, 4
  {
    ExpressionSound(input, st);
    var e := Expression(input, st);
    if e.Ok? && e.value.matched {
      ArgumentsTailSound(input, e.value.state);
      var t := ArgumentsTail(input, e.value.state);
      if t.Ok? {
        AdvancedTrans(input, st, e.value.state, t.value);
      }
    }
  }

  lemma {:induction false} ArgumentsTailSound(input: string, st: State<Category>)
    requires Valid(input, st)
    ensures SoundState(input, st, ArgumentsTail(input, st))
    decreases |input| - st.cursor, 0
  {
    var comma := Match(input, st, ",", Comma);
    MatchKeepsValid(input, st, ",", Comma);
    if comma.matched {
      StartsAtChar(input, st.cursor, ',');
      ExpressionSound(input, comma.state);
      var e := Expression(input, comma.state);
      if e.Ok? && e.value.matched {
        AdvancedTrans(input, st, comma.state, e.value.state);
        ArgumentsTailSound(input, e.value.state);
        var t := ArgumentsTail(input, e.value.state);
        if t.Ok? {
          AdvancedTrans(input, st, e.value.state, t.value);
        }
      }
    }
  }

  /** A successful `lex` spells out the whole input, blanks aside, as a
      sequence of lexemes in order; a failed one reports a `Located` error. */
  lemma LexSound(input: string)
    ensures var r := Lex(input);
      && (r.Ok? ==> Lexemes(input, r.value) && Ordered(r.value) && Texts(r.value) == Strip(input))
      && (r.Ok? ==> forall i, j :: 0 <= i < j < |r.value| ==> r.value[i].offset < r.value[j].offset)
      && (r.Err? ==> Located(input, r.error))
  {
    var s0: State<Category> := State(0, []);
    assert input[..0] == [];
    ExpressionSound(input, s0);
    var e := Expression(input, s0);
    if e.Ok? && e.value.state.cursor == |input| {
      assert input[..e.value.state.cursor] == input;
    }
  }

  lemma AfterInfixLocated(input: string, c: nat, o: nat)
    requires c < |input| && input[c] in "+-*/="
    requires IsRun(input, c + 1, o, Blanks)
    ensures Located(input, LexError(o, ExpectedExpression))
  {
    BlankStartOfRun(input, c + 1, o);
  }

  lemma {:induction false} BlankStartOfRun(s: string, a: nat, b: nat)
    requires a <= b <= |s|
    requires forall m :: a <= m < b ==> Blanks.Has(s[m])
    requires a == 0 || !Blanks.Has(s[a - 1])
    ensures BlankStart(s, b) == a
    decreases b - a
  {
    if a < b {
      BlankStartOfRun(s, a, b - 1);
    }
  }
}
