/** Properties of the calc lexer that relate several rules or several calls. */
module CalcProperties {
  import opened Results
  import opened Scanner
  import opened CalcLexer

  /** A name starts at `c`: an identifier character that is not a digit
      (a digit would be read by the INTEGER rule first). */
  ghost predicate NameAt(input: string, c: nat)
  {
    c < |input| && IdentChars.Has(input[c]) && !Digits.Has(input[c])
  }

  /** Backtracking: a name not followed by optional blanks and `(` yields
      exactly one `Variable` token, appended to the output as it was on entry
      to `_lex_value`; the speculative `Invoke` token does not survive. */
  lemma IdentifierBacktracks(input: string, st: State<Category>)
    requires st.cursor <= |input| && NameAt(input, st.cursor)
    requires var p := RunEnd(input, RunEnd(input, st.cursor, IdentChars), Blanks);
      p == |input| || input[p] != '('
    ensures var e := RunEnd(input, st.cursor, IdentChars);
      Value(input, st) == Ok(Step(true, State(e, st.output + [Token(st.cursor, Variable, input[st.cursor..e])])))
  {
    var invoke := Regex(input, st, IdentChars, Invoke);
    assert invoke.state.cursor == RunEnd(input, st.cursor, IdentChars);
    var ws := Whitespace(input, invoke.state);
    assert ws.cursor == RunEnd(input, invoke.state.cursor, Blanks);
  }

  /** The state after the name at the cursor was read as an `Invoke` token. */
  function Named(input: string, st: State<Category>): State<Category>
    requires st.cursor <= |input|
  {
    var e := RunEnd(input, st.cursor, IdentChars);
    State(e, st.output + [Token(st.cursor, Invoke, input[st.cursor..e])])
  }

  /** At a name, `_lex_value` goes to the call rule with the speculative
      `Invoke` token appended. */
  lemma ValueAtName(input: string, st: State<Category>)
    requires st.cursor <= |input| && NameAt(input, st.cursor)
    ensures st.cursor < Named(input, st).cursor
    ensures Value(input, st) == Call(input, st, Named(input, st))
  {
    assert !Match(input, st, "(", Open).matched;
  }

  /** Commitment: once `(` follows a name and its blanks, the result is an
      `Invoke` token, that `(`, the arguments and a `)`, or an error at or
      after the `(`; the IDENTIFIER rule is never retried. */
  lemma CallCommits(input: string, st: State<Category>)
    requires st.cursor <= |input| && NameAt(input, st.cursor)
    requires var p := RunEnd(input, RunEnd(input, st.cursor, IdentChars), Blanks);
      p < |input| && input[p] == '('
    ensures var e := RunEnd(input, st.cursor, IdentChars);
      var p := RunEnd(input, e, Blanks);
      var r := Value(input, st);
      && (r.Ok? ==>
        && r.value.matched
        && |r.value.state.output| >= |st.output| + 3
        && r.value.state.output[|st.output|] == Token(st.cursor, Invoke, input[st.cursor..e])
        && r.value.state.output[|st.output| + 1] == Token(p, Open, "(")
        && Last(r.value.state.output) == Token(r.value.state.cursor - 1, Close, ")"))
      && (r.Err? ==> p <= r.error.offset)
  {
    ValueAtName(input, st);
    var invoke := Named(input, st);
    var ws := Whitespace(input, invoke);
    var open := Match(input, ws, "(", Open);
    var args := Arguments(input, open.state);
    CallOpened(input, st, invoke);
    if args.Ok? {
      var out := args.value.state.output;
      assert open.state.output <= out;
      assert out[|st.output|] == open.state.output[|st.output|];
      assert out[|st.output| + 1] == open.state.output[|st.output| + 1];
    }
  }

  /** The call rule once its `(` is there: the arguments, then `)`. */
  lemma CallOpened(input: string, backup: State<Category>, st: State<Category>)
    requires backup.cursor < st.cursor <= |input| && backup.output <= st.output
    requires IdentChars.Has(input[backup.cursor])
    requires StartsAt(input, Whitespace(input, st).cursor, "(")
    ensures var ws := Whitespace(input, st);
      var open := Match(input, ws, "(", Open);
      Call(input, backup, st) == (
        match Arguments(input, open.state)
        case Err(e) => Err(e)
        case Ok(args) => CloseParen(input, args.state, ws.cursor))
  {
  }

  /** Nothing a value can start with: the rule returns `False` and leaves
      the state alone. */
  lemma NoValueAt(input: string, st: State<Category>)
    requires st.cursor <= |input|
    requires st.cursor == |input| || (input[st.cursor] != '(' && !IdentChars.Has(input[st.cursor]))
    ensures Value(input, st) == Ok(Step(false, st))
  {
    assert !Match(input, st, "(", Open).matched;
  }

  /** Nothing a term can start with: `_lex_expression` returns `False`
      having skipped only the blanks. */
  lemma NoExpressionAt(input: string, st: State<Category>)
    requires st.cursor <= |input|
    requires var w := Whitespace(input, st).cursor;
      w == |input| || (input[w] != '(' && input[w] != '-' && !IdentChars.Has(input[w]))
    ensures Expression(input, st) == Ok(Step(false, Whitespace(input, st)))
  {
    var w := Whitespace(input, st);
    assert Prefixes(input, w) == w;
    assert Whitespace(input, w) == w;
    NoValueAt(input, w);
  }

  /** A value can start at `c`: a `(`, or a character a name or an integer
      starts with. */
  predicate ValueStart(input: string, c: nat) {
    c < |input| && (input[c] == '(' || IdentChars.Has(input[c]))
  }

  /** Where `_lex_term` looks for its value: past the prefix `-`s and the
      blanks after them. */
  function ValueCursor(input: string, st: State<Category>): nat
    requires st.cursor <= |input|
  {
    Whitespace(input, Prefixes(input, st)).cursor
  }

  /** `_lex_value` returns `False`, leaving the state alone, exactly when
      no value starts at the cursor. */
  lemma ValueFalse(input: string, st: State<Category>)
    requires st.cursor <= |input|
    ensures Value(input, st) == Ok(Step(false, st)) <==> !ValueStart(input, st.cursor)
  {
    StartsAtChar(input, st.cursor, '(');
  }

  /** `_lex_term` returns `False` exactly when no value starts past the
      prefixes and blanks, and it has then restored its backup. */
  lemma TermFalse(input: string, st: State<Category>)
    requires st.cursor <= |input|
    ensures Term(input, st) == Ok(Step(false, st)) <==> !ValueStart(input, ValueCursor(input, st))
  {
    ValueFalse(input, Whitespace(input, Prefixes(input, st)));
  }

  /** `_lex_expression` returns `False` exactly when no term starts after
      the leading blanks, and it has then skipped only those blanks. */
  lemma ExpressionFalse(input: string, st: State<Category>)
    requires st.cursor <= |input|
    ensures var ws := Whitespace(input, st);
      Expression(input, st) == Ok(Step(false, ws)) <==> !ValueStart(input, ValueCursor(input, ws))
  {
    TermFalse(input, Whitespace(input, st));
  }

  /** An expression that returned `False` skipped only the blanks. */
  lemma ExpressionFalseState(input: string, st: State<Category>)
    requires st.cursor <= |input|
    requires Expression(input, st).Ok? && !Expression(input, st).value.matched
    ensures Expression(input, st) == Ok(Step(false, Whitespace(input, st)))
  {
    RunEndUnique(input, st.cursor, Expression(input, st).value.state.cursor, Blanks);
  }

  /** `)` after blanks: the arguments are absent and `_lex_arguments`
      returns `False` having skipped the blanks. */
  lemma NoArguments(input: string, st: State<Category>)
    requires st.cursor <= |input|
    requires var w := Whitespace(input, st).cursor; w < |input| && input[w] == ')'
    ensures Arguments(input, st) == Ok(Step(false, Whitespace(input, st)))
  {
    var e := Expression(input, st);
    NoExpressionAt(input, st);
    assert e.Ok? && !e.value.matched;
  }

  /** `)` at the cursor closes the group or call opened at `offset`. */
  lemma CloseAt(input: string, st: State<Category>, offset: nat)
    requires st.cursor < |input| && input[st.cursor] == ')'
    ensures CloseParen(input, st, offset) == Ok(Step(true, State(st.cursor + 1, st.output + [Token(st.cursor, Close, ")")])))
  {
    StartsAtChar(input, st.cursor, ')');
  }

  /** `(`, blanks, `)` at the cursor: there are no arguments. */
  lemma NoArgumentsAfterOpen(input: string, ws: State<Category>, q: nat)
    requires ws.cursor < |input| && input[ws.cursor] == '('
    requires q == RunEnd(input, ws.cursor + 1, Blanks) && q < |input| && input[q] == ')'
    ensures var open := Match(input, ws, "(", Open);
      Arguments(input, open.state) == Ok(Step(false, Whitespace(input, open.state)))
  {
    StartsAtChar(input, ws.cursor, '(');
    NoArguments(input, Match(input, ws, "(", Open).state);
  }

  /** `(`, blanks, `)` at the cursor: the `)` closes the `(`. */
  lemma CloseAfterBlanks(input: string, ws: State<Category>, inner: State<Category>, q: nat)
    requires ws.cursor < |input| && input[ws.cursor] == '('
    requires inner == Whitespace(input, Match(input, ws, "(", Open).state)
    requires q == RunEnd(input, ws.cursor + 1, Blanks) && q < |input| && input[q] == ')'
    ensures CloseParen(input, inner, ws.cursor)
      == Ok(Step(true, State(q + 1, ws.output + [Token(ws.cursor, Open, "("), Token(q, Close, ")")])))
  {
    StartsAtChar(input, ws.cursor, '(');
    var open := Match(input, ws, "(", Open);
    assert open.state == State(ws.cursor + 1, ws.output + [Token(ws.cursor, Open, "(")]);
    assert inner == State(q, open.state.output);
    CloseAt(input, inner, ws.cursor);
    assert open.state.output + [Token(q, Close, ")")] == ws.output + [Token(ws.cursor, Open, "("), Token(q, Close, ")")];
  }

  /** The call rule once its `(` is there and no arguments follow. */
  lemma CallWithoutArguments(input: string, backup: State<Category>, st: State<Category>, p: nat, inner: State<Category>)
    requires backup.cursor < st.cursor <= |input| && backup.output <= st.output
    requires IdentChars.Has(input[backup.cursor])
    requires p == Whitespace(input, st).cursor && p < |input| && input[p] == '('
    requires inner == Whitespace(input, Match(input, Whitespace(input, st), "(", Open).state)
    requires Arguments(input, Match(input, Whitespace(input, st), "(", Open).state) == Ok(Step(false, inner))
    ensures Call(input, backup, st) == CloseParen(input, inner, p)
  {
    StartsAtChar(input, p, '(');
    CallOpened(input, backup, st);
  }

  /** The call rule with nothing but blanks between `(` and `)`. */
  lemma EmptyParens(input: string, backup: State<Category>, st: State<Category>, p: nat, q: nat)
    requires backup.cursor < st.cursor <= |input| && backup.output <= st.output
    requires IdentChars.Has(input[backup.cursor])
    requires p == Whitespace(input, st).cursor && p < |input| && input[p] == '('
    requires q == RunEnd(input, p + 1, Blanks) && q < |input| && input[q] == ')'
    ensures Call(input, backup, st) == Ok(Step(true, State(q + 1, st.output + [Token(p, Open, "("), Token(q, Close, ")")])))
  {
    var ws := Whitespace(input, st);
    var inner := Whitespace(input, Match(input, ws, "(", Open).state);
    assert ws.cursor == p;
    NoArgumentsAfterOpen(input, ws, q);
    CallWithoutArguments(input, backup, st, p, inner);
    CloseAfterBlanks(input, ws, inner, q);
  }

  /** An empty argument list is accepted, blanks inside the parentheses
      included: `f()` and `f ( )` give `Invoke`, `Open`, `Close`. */
  lemma EmptyCall(input: string, st: State<Category>, p: nat, q: nat)
    requires st.cursor <= |input| && NameAt(input, st.cursor)
    requires p == RunEnd(input, Named(input, st).cursor, Blanks) && p < |input| && input[p] == '('
    requires q == RunEnd(input, p + 1, Blanks) && q < |input| && input[q] == ')'
    ensures Value(input, st) == Ok(Step(true, State(q + 1, Named(input, st).output + [Token(p, Open, "("), Token(q, Close, ")")])))
  {
    var named := Named(input, st);
    assert Value(input, st) == Call(input, st, named) by {
      ValueAtName(input, st);
    }
    EmptyParens(input, st, named, p, q);
  }

  lemma LexEmptyCall()
    ensures Lex("f ( )") == Ok([Token(0, Invoke, "f"), Token(2, Open, "("), Token(4, Close, ")")])
  {
    EmptyCallLex("f ( )", State(0, []));
  }

  /** Here and below the fresh lexer state (and sometimes the input) is a
      parameter pinned by `requires` rather than a literal in the contract:
      the same fact, but far cheaper for the solver to unfold. */
  lemma EmptyCallLex(input: string, s0: State<Category>)
    requires input == "f ( )" && s0 == State(0, [])
    ensures Lex(input) == Ok([Token(0, Invoke, "f"), Token(2, Open, "("), Token(4, Close, ")")])
  {
    var w := State(5, [Token(0, Invoke, "f"), Token(2, Open, "("), Token(4, Close, ")")]);
    EmptyCallTerm(input, s0);
    assert Whitespace(input, s0) == s0;
    SingleTerm(input, s0, w, w);
    LexFinalizes(input, s0, w, true);
  }

  lemma EmptyCallTerm(input: string, s0: State<Category>)
    requires input == "f ( )" && s0 == State(0, [])
    ensures Term(input, s0) == Ok(Step(true, State(5, [Token(0, Invoke, "f"), Token(2, Open, "("), Token(4, Close, ")")])))
  {
    EmptyCallShape(input, s0);
    EmptyCall(input, s0, 2, 4);
    assert [Token(0, Invoke, "f")] + [Token(2, Open, "("), Token(4, Close, ")")]
      == [Token(0, Invoke, "f"), Token(2, Open, "("), Token(4, Close, ")")];
    TermIsValue(input, s0);
  }

  lemma EmptyCallShape(input: string, s0: State<Category>)
    requires input == "f ( )" && s0 == State(0, [])
    ensures Named(input, s0) == State(1, [Token(0, Invoke, "f")])
    ensures RunEnd(input, 1, Blanks) == 2 && RunEnd(input, 3, Blanks) == 4
  {
    RunEndUnique(input, 0, 1, IdentChars);
    assert input[0..1] == "f";
    RunEndUnique(input, 1, 2, Blanks);
    RunEndUnique(input, 3, 4, Blanks);
  }

  /** Input made only of blanks, the empty input included, lexes to no
      tokens at all. */
  lemma BlankInputLexesToNothing(input: string)
    requires forall i :: 0 <= i < |input| ==> Blanks.Has(input[i])
    ensures Lex(input) == Ok([])
  {
    var s0: State<Category> := State(0, []);
    NoExpressionAt(input, s0);
  }

  /** Without a `-` or a blank at the cursor, a term is just a value. */
  lemma TermIsValue(input: string, st: State<Category>)
    requires st.cursor <= |input|
    requires st.cursor == |input| || (input[st.cursor] != '-' && !Blanks.Has(input[st.cursor]))
    ensures Term(input, st) == Value(input, st)
  {
    StartsAtChar(input, st.cursor, '-');
    assert Prefixes(input, st) == st;
  }

  /** Without an operator at the cursor the infix loop stops at once. */
  lemma TailStops(input: string, st: State<Category>)
    requires st.cursor <= |input|
    requires st.cursor == |input| || input[st.cursor] !in "+-*/="
    ensures ExpressionTail(input, st) == Ok(st)
  {
  }

  /** Input that is one name and nothing else lexes to one `Variable`. */
  lemma SingleName(input: string)
    requires NameAt(input, 0)
    requires forall i :: 0 <= i < |input| ==> IdentChars.Has(input[i])
    ensures Lex(input) == Ok([Token(0, Variable, input)])
  {
    var s0: State<Category> := State(0, []);
    var s1 := State(|input|, [Token(0, Variable, input)]);
    assert Whitespace(input, s0) == s0 by {
      RunEndUnique(input, 0, 0, Blanks);
    }
    assert Value(input, s0) == Ok(Step(true, s1)) by {
      RunEndUnique(input, 0, |input|, IdentChars);
      RunEndUnique(input, |input|, |input|, Blanks);
      IdentifierBacktracks(input, s0);
      assert input[0..|input|] == input;
      assert s0.output + [Token(0, Variable, input)] == s1.output;
    }
    assert Term(input, s0) == Ok(Step(true, s1)) by {
      TermIsValue(input, s0);
    }
    assert Whitespace(input, s1) == s1;
    TailStops(input, s1);
  }

  lemma LexVariable()
    ensures Lex("f") == Ok([Token(0, Variable, "f")])
  {
    SingleName("f");
  }

  /** A digit at the cursor: the INTEGER rule takes the whole run of digits. */
  lemma IntegerValue(input: string, st: State<Category>)
    requires st.cursor <= |input| && st.cursor < |input| && Digits.Has(input[st.cursor])
    ensures var e := RunEnd(input, st.cursor, Digits);
      Value(input, st) == Ok(Step(true, State(e, st.output + [Token(st.cursor, Integer, input[st.cursor..e])])))
  {
    var integer := Regex(input, st, Digits, Integer);
    RunEndUnique(input, st.cursor, integer.state.cursor, Digits);
    StartsAtChar(input, st.cursor, '(');
  }

  /** Digits from the cursor to `k`: the term is one `Integer` token. */
  lemma IntegerTerm(input: string, st: State<Category>, k: nat)
    requires st.cursor < k && IsRun(input, st.cursor, k, Digits)
    ensures Term(input, st) == Ok(Step(true, State(k, st.output + [Token(st.cursor, Integer, input[st.cursor..k])])))
  {
    RunEndUnique(input, st.cursor, k, Digits);
    IntegerValue(input, st);
    TermIsValue(input, st);
  }

  /** An expression that is one term, with no operator after it. */
  lemma SingleTerm(input: string, st: State<Category>, t: State<Category>, w: State<Category>)
    requires st.cursor <= |input| && Whitespace(input, st) == st
    requires Term(input, st) == Ok(Step(true, t))
    requires w == Whitespace(input, t) && (w.cursor == |input| || input[w.cursor] !in "+-*/=")
    ensures Expression(input, st) == Ok(Step(true, w))
  {
    TailStops(input, w);
  }

  /** Digits from offset 0 to `k`: the first term is one `Integer` token. */
  lemma LeadingIntegerTerm(input: string, s0: State<Category>, k: nat)
    requires s0 == State(0, [])
    requires 0 < k && IsRun(input, 0, k, Digits)
    ensures Term(input, s0) == Ok(Step(true, State(k, [Token(0, Integer, input[0..k])])))
  {
    IntegerTerm(input, s0, k);
    assert s0.output + [Token(0, Integer, input[0..k])] == [Token(0, Integer, input[0..k])];
  }

  /** `lex` is `finalize` applied to what the expression left. */
  lemma LexFinalizes(input: string, s0: State<Category>, w: State<Category>, matched: bool)
    requires s0 == State(0, [])
    requires Expression(input, s0) == Ok(Step(matched, w))
    ensures w.cursor <= |input| && Lex(input) == Finalize(input, w)
  {
  }

  /** Two integers with only blanks between them: the expression ends after
      the first, and `finalize` reports the second as trailing input. */
  lemma TrailingInteger(input: string, k: nat)
    requires 0 < k < |input| - 1
    requires IsRun(input, 0, k, Digits)
    requires Blanks.Has(input[k]) && Digits.Has(input[k + 1])
    ensures Lex(input) == Err(LexError(k + 1, InvalidSyntax))
  {
    var s0: State<Category> := State(0, []);
    IntegerThenBlank(input, s0, k);
    LexTrails(input, s0, State(k + 1, [Token(0, Integer, input[0..k])]));
  }

  /** Digits up to `k`, then one blank and no operator: the expression is
      the integer and stops past the blank. */
  lemma IntegerThenBlank(input: string, s0: State<Category>, k: nat)
    requires s0 == State(0, [])
    requires 0 < k < |input| - 1
    requires IsRun(input, 0, k, Digits)
    requires Blanks.Has(input[k]) && Digits.Has(input[k + 1])
    ensures Expression(input, s0) == Ok(Step(true, State(k + 1, [Token(0, Integer, input[0..k])])))
  {
    var s1 := State(k, [Token(0, Integer, input[0..k])]);
    var w := State(k + 1, s1.output);
    LeadingIntegerTerm(input, s0, k);
    assert Whitespace(input, s1) == w by {
      RunEndUnique(input, k, k + 1, Blanks);
    }
    assert Whitespace(input, s0) == s0;
    SingleTerm(input, s0, s1, w);
  }

  /** An expression that stops short of the end of the input: `lex`
      reports the rest as trailing input. */
  lemma LexTrails(input: string, s0: State<Category>, w: State<Category>)
    requires s0 == State(0, [])
    requires Expression(input, s0) == Ok(Step(true, w)) && w.cursor < |input|
    ensures Lex(input) == Err(LexError(w.cursor, InvalidSyntax))
  {
    LexFinalizes(input, s0, w, true);
  }

  lemma LexTrailingInput()
    ensures Lex("1 2") == Err(LexError(2, InvalidSyntax))
  {
    TrailingInteger("1 2", 1);
  }

  /** Nothing a term can start with at the cursor: `_lex_term` returns
      `False` with the state unchanged. */
  lemma NoTermAt(input: string, st: State<Category>)
    requires st.cursor <= |input|
    requires st.cursor == |input| || (input[st.cursor] != '(' && input[st.cursor] != '-'
      && !IdentChars.Has(input[st.cursor]) && !Blanks.Has(input[st.cursor]))
    ensures Term(input, st) == Ok(Step(false, st))
  {
    NoValueAt(input, st);
    TermIsValue(input, st);
  }

  /** An operator with no value past the prefixes and blanks after it: the
      error points just past the operator and its blanks, before any prefix
      `-` matched there. */
  lemma MissingOperand(input: string, st: State<Category>)
    requires st.cursor < |input| && input[st.cursor] in "+-*/="
    requires !ValueStart(input, ValueCursor(input, Whitespace(input, InfixOp(input, st).state)))
    ensures ExpressionTail(input, st) == Err(LexError(RunEnd(input, st.cursor + 1, Blanks), ExpectedExpression))
  {
    TermFalse(input, Whitespace(input, InfixOp(input, st).state));
  }

  /** An integer followed by an operator and nothing else. */
  lemma DanglingOperator(input: string, k: nat)
    requires 0 < k && k + 1 == |input|
    requires forall i :: 0 <= i < k ==> Digits.Has(input[i])
    requires input[k] in "+-*/="
    ensures Lex(input) == Err(LexError(|input|, ExpectedExpression))
  {
    var s0: State<Category> := State(0, []);
    DanglingExpression(input, s0, k);
    LexFails(input, s0, LexError(|input|, ExpectedExpression));
  }

  /** The expression of an integer and a final operator. */
  lemma DanglingExpression(input: string, s0: State<Category>, k: nat)
    requires s0 == State(0, [])
    requires 0 < k && k + 1 == |input|
    requires forall i :: 0 <= i < k ==> Digits.Has(input[i])
    requires input[k] in "+-*/="
    ensures Expression(input, s0) == Err(LexError(|input|, ExpectedExpression))
  {
    var t := Term(input, s0);
    assert t.Ok? && t.value.matched && t.value.state.cursor == k by {
      RunEndUnique(input, 0, k, Digits);
      IntegerValue(input, s0);
      TermIsValue(input, s0);
    }
    var s1 := Whitespace(input, t.value.state);
    assert s1.cursor == k;
    var w := Whitespace(input, InfixOp(input, s1).state);
    assert w.cursor == |input| && Prefixes(input, w) == w;
    MissingOperand(input, s1);
    assert Whitespace(input, s0) == s0;
  }

  /** An expression that fails on the fresh lexer makes `lex` fail with
      the same error. */
  lemma LexFails(input: string, s0: State<Category>, e: LexError)
    requires s0 == State(0, []) && Expression(input, s0) == Err(e)
    ensures Lex(input) == Err(e)
  {
  }

  lemma LexDanglingOperator()
    ensures Lex("1+") == Err(LexError(2, ExpectedExpression))
  {
    DanglingOperator("1+", 1);
  }

  /** Input made only of `-`: the prefix operators are lexed, no value
      follows, and the term restores its backup, a copy of the output taken
      before the prefixes, so nothing is left of them; `finalize` then
      reports the whole input as trailing. */
  lemma OnlyPrefixes(input: string)
    requires 0 < |input|
    requires forall i :: 0 <= i < |input| ==> input[i] == '-'
    ensures Lex(input) == Err(LexError(0, InvalidSyntax))
  {
    var s0: State<Category> := State(0, []);
    var p := Prefixes(input, s0);
    assert p.cursor == |input| by {
      StartsAtChar(input, p.cursor, '-');
    }
    assert Term(input, s0) == Ok(Step(false, s0)) by {
      assert Whitespace(input, p) == p;
      NoValueAt(input, p);
    }
    assert Whitespace(input, s0) == s0;
  }

  lemma LexLoneMinus()
    ensures Lex("-") == Err(LexError(0, InvalidSyntax))
  {
    OnlyPrefixes("-");
  }

  /** Digits from the cursor to the end of the input: an expression that
      consumes all of them. */
  lemma IntegerExpression(input: string, st: State<Category>)
    requires st.cursor < |input| && IsRun(input, st.cursor, |input|, Digits)
    ensures var e := Expression(input, st);
      e.Ok? && e.value.matched && e.value.state.cursor == |input|
  {
    assert Whitespace(input, st) == st;
    var t := Term(input, st);
    assert t.Ok? && t.value.matched && t.value.state.cursor == |input| by {
      RunEndUnique(input, st.cursor, |input|, Digits);
      IntegerValue(input, st);
      TermIsValue(input, st);
    }
    var w := Whitespace(input, t.value.state);
    assert w == t.value.state;
    TailStops(input, w);
  }

  /** A `(` and an integer running to the end of the input: the error is
      the missing `)`, and it points at the `(`. */
  lemma UnclosedGroup(input: string)
    requires 1 < |input| && input[0] == '(' && IsRun(input, 1, |input|, Digits)
    ensures Lex(input) == Err(LexError(0, MissingParenthesis))
  {
    var s0: State<Category> := State(0, []);
    UnclosedGroupAt(input, s0);
    TermIsValue(input, s0);
    assert Whitespace(input, s0) == s0;
  }

  /** `_lex_value` at a `(` followed by digits up to the end of the input. */
  lemma UnclosedGroupAt(input: string, st: State<Category>)
    requires st.cursor + 1 < |input| && input[st.cursor] == '('
    requires IsRun(input, st.cursor + 1, |input|, Digits)
    ensures Value(input, st) == Err(LexError(st.cursor, MissingParenthesis))
  {
    StartsAtChar(input, st.cursor, '(');
    var open := Match(input, st, "(", Open);
    IntegerExpression(input, open.state);
    StartsAtChar(input, |input|, ')');
  }

  lemma LexUnclosedGroup()
    ensures Lex("(1") == Err(LexError(0, MissingParenthesis))
  {
    UnclosedGroup("(1");
  }

  /** A `(` with no value past the prefixes and blanks after it: the
      missing expression is reported at that `(`, and an "expected
      expression" error there arises only that way, since the errors of
      the inner rules lie past the `(`. */
  lemma EmptyGroup(input: string, st: State<Category>)
    requires st.cursor < |input| && input[st.cursor] == '('
    ensures var inner := Whitespace(input, Match(input, st, "(", Open).state);
      Value(input, st) == Err(LexError(st.cursor, ExpectedExpression)) <==> !ValueStart(input, ValueCursor(input, inner))
  {
    StartsAtChar(input, st.cursor, '(');
    var open := Match(input, st, "(", Open);
    ExpressionFalse(input, open.state);
    var e := Expression(input, open.state);
    if e.Ok? && !e.value.matched {
      ExpressionFalseState(input, open.state);
    }
  }

  lemma LexEmptyGroup()
    ensures Lex("( )") == Err(LexError(0, ExpectedExpression))
  {
    var s0: State<Category> := State(0, []);
    GroupAtEnd("( )", s0);
    TermIsValue("( )", s0);
    assert Whitespace("( )", s0) == s0;
  }

  /** `(`, blanks and `)` or `-)`: no expression inside. */
  lemma GroupAtEnd(input: string, st: State<Category>)
    requires st.cursor < |input| && input[st.cursor] == '('
    requires var w := RunEnd(input, st.cursor + 1, Blanks);
      w < |input| && input[w] == ')'
    ensures Value(input, st) == Err(LexError(st.cursor, ExpectedExpression))
  {
    StartsAtChar(input, st.cursor, '(');
    var inner := Whitespace(input, Match(input, st, "(", Open).state);
    assert Prefixes(input, inner) == inner;
    assert Whitespace(input, inner) == inner;
    EmptyGroup(input, st);
  }

  /** `(-)` at the cursor: the prefix `-` is matched, no value follows,
      and the group reports the missing expression at its `(`. */
  lemma MinusGroup(input: string, st: State<Category>)
    requires st.cursor + 2 < |input|
    requires input[st.cursor] == '(' && input[st.cursor + 1] == '-' && input[st.cursor + 2] == ')'
    ensures Value(input, st) == Err(LexError(st.cursor, ExpectedExpression))
  {
    StartsAtChar(input, st.cursor, '(');
    var open := Match(input, st, "(", Open).state;
    assert open.cursor == st.cursor + 1;
    assert RunEnd(input, st.cursor + 1, Blanks) == st.cursor + 1;
    MinusThenClose(input, Whitespace(input, open));
    EmptyGroup(input, st);
  }

  /** `-)` at the cursor: the prefix is matched and the value would be
      looked for at the `)`. */
  lemma MinusThenClose(input: string, st: State<Category>)
    requires st.cursor + 1 < |input| && input[st.cursor] == '-' && input[st.cursor + 1] == ')'
    ensures ValueCursor(input, st) == st.cursor + 1
  {
    StartsAtChar(input, st.cursor, '-');
    var m := Match(input, st, "-", Prefix);
    assert m.matched && m.state.cursor == st.cursor + 1;
    StartsAtChar(input, st.cursor + 1, '-');
    assert Prefixes(input, m.state) == m.state;
    assert RunEnd(input, st.cursor + 1, Blanks) == st.cursor + 1;
  }

  /** A prefix `-` alone inside parentheses: the term restores its backup
      and the group reports the missing expression at its `(`. */
  lemma LexMinusGroup()
    ensures Lex("(-)") == Err(LexError(0, ExpectedExpression))
  {
    var s0: State<Category> := State(0, []);
    MinusGroup("(-)", s0);
    LeadingValueFails("(-)", s0);
  }

  /** A `(` whose expression is not followed by `)`: the error is reported
      at that `(`, and a "missing closing parenthesis" error there arises
      only that way. */
  lemma GroupUnclosed(input: string, st: State<Category>)
    requires st.cursor < |input| && input[st.cursor] == '('
    ensures var e := Expression(input, Match(input, st, "(", Open).state);
      (Value(input, st) == Err(LexError(st.cursor, MissingParenthesis)))
        <==> e.Ok? && e.value.matched && !StartsAt(input, e.value.state.cursor, ")")
  {
    StartsAtChar(input, st.cursor, '(');
  }

  /** A name, blanks and `(` commit to a call: when the arguments are not
      followed by `)`, the missing `)` is reported at the `(`, and an error
      of that kind there arises only that way. */
  lemma UnclosedCall(input: string, st: State<Category>, p: nat, open: State<Category>)
    requires st.cursor <= |input| && NameAt(input, st.cursor)
    requires p == RunEnd(input, Named(input, st).cursor, Blanks) && p < |input| && input[p] == '('
    requires open == State(p + 1, Named(input, st).output + [Token(p, Open, "(")])
    ensures (Value(input, st) == Err(LexError(p, MissingParenthesis)))
      <==> Arguments(input, open).Ok? && !StartsAt(input, Arguments(input, open).value.state.cursor, ")")
  {
    var named := Named(input, st);
    assert Value(input, st) == Call(input, st, named) by {
      ValueAtName(input, st);
    }
    StartsAtChar(input, p, '(');
    assert Match(input, Whitespace(input, named), "(", Open).state == open;
    CallOpened(input, st, named);
  }

  /** `f(1`: the argument is read, no `)` follows it, and the error is at
      the `(`. */
  lemma UnclosedCallArgs(input: string, s0: State<Category>)
    requires input == "f(1" && s0 == State(0, [])
    ensures Value(input, s0) == Err(LexError(1, MissingParenthesis))
  {
    RunEndUnique(input, 0, 1, IdentChars);
    assert input[0..1] == "f";
    assert Named(input, s0) == State(1, [Token(0, Invoke, "f")]);
    RunEndUnique(input, 1, 1, Blanks);
    var open: State<Category> := State(2, [Token(0, Invoke, "f"), Token(1, Open, "(")]);
    assert open == State(2, Named(input, s0).output + [Token(1, Open, "(")]);
    IntegerExpression(input, open);
    var e := Expression(input, open);
    assert ArgumentsTail(input, e.value.state) == Ok(e.value.state) by {
      StartsAtChar(input, 3, ',');
    }
    StartsAtChar(input, 3, ')');
    UnclosedCall(input, s0, 1, open);
  }

  lemma LexUnclosedCall()
    ensures Lex("f(1") == Err(LexError(1, MissingParenthesis))
  {
    UnclosedCallLex("f(1", State(0, []));
  }

  lemma UnclosedCallLex(input: string, s0: State<Category>)
    requires input == "f(1" && s0 == State(0, [])
    ensures Lex(input) == Err(LexError(1, MissingParenthesis))
  {
    UnclosedCallArgs(input, s0);
    LeadingValueFails(input, s0);
  }

  /** A value at the start of the input, with no `-` or blank before it,
      that fails makes `lex` fail with the same error. */
  lemma LeadingValueFails(input: string, s0: State<Category>)
    requires s0 == State(0, []) && 0 < |input| && input[0] != '-' && !Blanks.Has(input[0])
    requires Value(input, s0).Err?
    ensures Lex(input) == Err(Value(input, s0).error)
  {
    TermIsValue(input, s0);
    assert Whitespace(input, s0) == s0;
    LexFails(input, s0, Value(input, s0).error);
  }

  /** A comma in an argument list with no value past the prefixes and
      blanks after it: the error points at the comma itself, not past it,
      and an "expected expression" error there arises only that way. */
  lemma TrailingComma(input: string, st: State<Category>)
    requires st.cursor < |input| && input[st.cursor] == ','
    ensures var inner := Whitespace(input, Match(input, st, ",", Comma).state);
      ArgumentsTail(input, st) == Err(LexError(st.cursor, ExpectedExpression)) <==> !ValueStart(input, ValueCursor(input, inner))
  {
    StartsAtChar(input, st.cursor, ',');
    var comma := Match(input, st, ",", Comma);
    ExpressionFalse(input, comma.state);
    var e := Expression(input, comma.state);
    if e.Ok? && !e.value.matched {
      ExpressionFalseState(input, comma.state);
    }
  }
}
