/** The lexer of calc/lexer.py. Its grammar:

      expression ::= WS? term WS? (INFIX WS? term WS?)*
      term       ::= PREFIX* WS? value
      value      ::= '(' expression ')' / INTEGER
                   / IDENTIFIER WS? '(' arguments? ')' / IDENTIFIER
      arguments  ::= expression (',' expression)*

    Each rule is a function from the lexer state to what the Python method
    returns (`True`/`False` with the state it leaves) or the `LexerError` it
    raises. The rules are mutually recursive; every re-entry into
    `Expression` happens only after a `(` or an identifier was consumed,
    so they terminate on (unconsumed input, rule rank).

    The contracts here say only how far each rule moves; what the tokens
    are and where errors point is the business of module CalcInvariant. */
module CalcLexer {
  import opened Results
  import opened Scanner

  datatype Category = Integer | Variable | Invoke | Open | Close | Comma | Prefix | Infix

  /** `LexerError(offset, message)`. */
  datatype LexError = LexError(offset: nat, message: string)

  const ExpectedExpression: string := "expected expression"
  const MissingParenthesis: string := "missing closing parenthesis"
  const InvalidSyntax: string := "invalid syntax"

  /** The characters `_lex_infix` iterates over. */
  const InfixOperators: seq<string> := ["+", "-", "*", "/", "="]

  /** `st'` is no further back than `st`, still inside the input, and has
      kept the tokens of `st`. */
  predicate Forward(input: string, st: State<Category>, st': State<Category>) {
    st.cursor <= st'.cursor <= |input| && st.output <= st'.output
  }

  /** `_lex_whitespace`: skip the maximal run of blanks; the token `_regex`
      appends for it is popped again, so the output is unchanged. */
  function Whitespace(input: string, st: State<Category>): (r: State<Category>)
    requires st.cursor <= |input|
    ensures IsRun(input, st.cursor, r.cursor, Blanks)
    ensures r.output == st.output
  {
    State(RunEnd(input, st.cursor, Blanks), st.output)
  }

  /** `while self._lex_prefix(): pass`: consume every `-` at the cursor. */
  function Prefixes(input: string, st: State<Category>): (r: State<Category>)
    requires st.cursor <= |input|
    ensures Forward(input, st, r)
    ensures !StartsAt(input, r.cursor, "-")
    decreases |input| - st.cursor
  {
    var m := Match(input, st, "-", Prefix);
    if m.matched then Prefixes(input, m.state) else st
  }

  /** `_lex_infix`: the first of `+ - * / =` at the cursor. */
  function InfixOp(input: string, st: State<Category>): (r: Step<Category>)
    requires st.cursor <= |input|
    ensures r.matched <==> st.cursor < |input| && input[st.cursor] in "+-*/="
    ensures r.matched ==>
      && r.state.cursor == st.cursor + 1
      && r.state.output == st.output + [Token(st.cursor, Infix, [input[st.cursor]])]
    ensures !r.matched ==> r.state == st
  {
    CharChoice(input, st.cursor, InfixOperators, "+-*/=");
    MatchAny(input, st, InfixOperators, Infix)
  }

  /** `_lex_expression`. On `False` it has still skipped the leading blanks. */
  function Expression(input: string, st: State<Category>): (r: Result<Step<Category>, LexError>)
    requires st.cursor <= |input|
    ensures r.Ok? ==> Forward(input, st, r.value.state)
    ensures r.Ok? && !r.value.matched ==>
      r.value.state.output == st.output && IsRun(input, st.cursor, r.value.state.cursor, Blanks)
    ensures r.Err? ==> st.cursor <= r.error.offset
    decreases |input| - st.cursor, 3
  {
    var t :- Term(input, Whitespace(input, st));
    if !t.matched then
      Ok(t)
    else
      var st' :- ExpressionTail(input, Whitespace(input, t.state));
      Ok(Step(true, st'))
  }

  /** `while self._lex_infix(): ...`: after an operator a term is required,
      else the error points at the cursor, just past the operator's blanks. */
  function ExpressionTail(input: string, st: State<Category>): (r: Result<State<Category>, LexError>)
    requires st.cursor <= |input|
    ensures r.Ok? ==> Forward(input, st, r.value)
    ensures r.Err? ==> st.cursor <= r.error.offset
    decreases |input| - st.cursor, 2
  {
    var op := InfixOp(input, st);
    if !op.matched then
      Ok(st)
    else
      var t :- Term(input, Whitespace(input, op.state));
      if !t.matched then
        Err(LexError(t.state.cursor, ExpectedExpression))
      else
        ExpressionTail(input, Whitespace(input, t.state))
  }

  /** `_lex_term`: prefixes, blanks and a value; if there is no value the
      state is restored to the backup taken on entry (a copy of the output). */
  function Term(input: string, st: State<Category>): (r: Result<Step<Category>, LexError>)
    requires st.cursor <= |input|
    ensures r.Ok? ==> Forward(input, st, r.value.state)
    ensures r.Ok? && !r.value.matched ==> r.value.state == st
    ensures r.Ok? && r.value.matched ==> st.cursor < r.value.state.cursor
    ensures r.Err? ==> st.cursor <= r.error.offset
    decreases |input| - st.cursor, 2
  {
    var backup := st;
    var v :- Value(input, Whitespace(input, Prefixes(input, st)));
    if v.matched then Ok(v) else Ok(Step(false, backup))
  }

  /** `_lex_value`: a group, an integer, a call, or a variable. A call is
      tried speculatively: when no `(` follows the identifier and its blanks,
      the state is restored to the backup taken on entry and the identifier
      is read again as a variable; once the `(` is there the lexer is
      committed to the call. */
  function Value(input: string, st: State<Category>): (r: Result<Step<Category>, LexError>)
    requires st.cursor <= |input|
    ensures r.Ok? ==> Forward(input, st, r.value.state)
    ensures r.Ok? && !r.value.matched ==> r.value.state == st
    ensures r.Ok? && r.value.matched ==> st.cursor < r.value.state.cursor
    ensures r.Err? ==> st.cursor <= r.error.offset
    decreases |input| - st.cursor, 1
  {
    var backup := st;
    var open := Match(input, st, "(", Open);
    if open.matched then
      Group(input, open.state)
    else
      var integer := Regex(input, st, Digits, Integer);
      if integer.matched then
        Ok(integer)
      else
        var invoke := Regex(input, st, IdentChars, Invoke);
        if invoke.matched then
          Call(input, backup, invoke.state)
        else
          Ok(Regex(input, st, IdentChars, Variable))
  }

  /** The rule `'(' expression ')'` after its `(`, the last token, was
      matched; errors point at that `(`. */
  function Group(input: string, st: State<Category>): (r: Result<Step<Category>, LexError>)
    requires st.cursor <= |input| && 0 < |st.output| && Last(st.output).offset <= st.cursor
    ensures r.Ok? ==> r.value.matched && Forward(input, st, r.value.state)
    ensures r.Err? ==> Last(st.output).offset <= r.error.offset
    decreases |input| - st.cursor, 4
  {
    var offset := Last(st.output).offset;
    var e :- Expression(input, st);
    if !e.matched then
      Err(LexError(offset, ExpectedExpression))
    else
      CloseParen(input, e.state, offset)
  }

  /** The rule `IDENTIFIER WS? '(' arguments? ')'` after the identifier was
      matched as an `Invoke` token: without a `(` the backup is restored and
      the IDENTIFIER rule runs instead. */
  function Call(input: string, backup: State<Category>, st: State<Category>): (r: Result<Step<Category>, LexError>)
    requires backup.cursor < st.cursor <= |input| && IdentChars.Has(input[backup.cursor])
    requires backup.output <= st.output
    ensures r.Ok? ==> r.value.matched && Forward(input, backup, r.value.state) && backup.cursor < r.value.state.cursor
    ensures r.Err? ==> backup.cursor <= r.error.offset
    decreases |input| - st.cursor, 0
  {
    var ws := Whitespace(input, st);
    var open := Match(input, ws, "(", Open);
    if open.matched then
      var offset := Last(open.state.output).offset;
      // the result of `_lex_arguments` is not looked at
      var args :- Arguments(input, open.state);
      CloseParen(input, args.state, offset)
    else
      // `self._restore(backup)`, then the IDENTIFIER rule
      Ok(Regex(input, backup, IdentChars, Variable))
  }

  /** `if self._match(')', CLOSE): ... else: raise LexerError(offset, ...)`,
      where `offset` is that of the `(` being closed. */
  function CloseParen(input: string, st: State<Category>, offset: nat): (r: Result<Step<Category>, LexError>)
    requires st.cursor <= |input|
    ensures r.Ok? <==> StartsAt(input, st.cursor, ")")
    ensures r.Ok? ==> r.value == Match(input, st, ")", Close)
    ensures r.Err? ==> r.error == LexError(offset, MissingParenthesis)
  {
    var close := Match(input, st, ")", Close);
    if close.matched then Ok(close) else Err(LexError(offset, MissingParenthesis))
  }

  /** `_lex_arguments`: `False` when no first expression is there. */
  function Arguments(input: string, st: State<Category>): (r: Result<Step<Category>, LexError>)
    requires st.cursor <= |input|
    ensures r.Ok? ==> Forward(input, st, r.value.state)
    ensures r.Err? ==> st.cursor <= r.error.offset
    decreases |input| - st.cursor, 4
  {
    var e :- Expression(input, st);
    if !e.matched then
      Ok(e)
    else
      var st' :- ArgumentsTail(input, e.state);
      Ok(Step(true, st'))
  }

  /** `while self._match(',', COMMA): ...`: a comma must be followed by an
      expression, else the error points at the comma (the last token). */
  function ArgumentsTail(input: string, st: State<Category>): (r: Result<State<Category>, LexError>)
    requires st.cursor <= |input|
    ensures r.Ok? ==> Forward(input, st, r.value)
    ensures r.Err? ==> st.cursor <= r.error.offset
    decreases |input| - st.cursor, 0
  {
    var comma := Match(input, st, ",", Comma);
    if !comma.matched then
      Ok(st)
    else
      var e :- Expression(input, comma.state);
      if !e.matched then
        Err(LexError(Last(e.state.output).offset, ExpectedExpression))
      else
        ArgumentsTail(input, e.state)
  }

  /** `finalize`: the tokens, provided nothing is left over. */
  function Finalize(input: string, st: State<Category>): (r: Result<seq<Token<Category>>, LexError>)
    requires st.cursor <= |input|
    ensures r.Ok? <==> st.cursor == |input|
    ensures r.Ok? ==> r.value == st.output
    ensures r.Err? ==> r.error == LexError(st.cursor, InvalidSyntax)
  {
    if st.cursor < |input| then Err(LexError(st.cursor, InvalidSyntax)) else Ok(st.output)
  }

  /** `lex_expression` then `finalize`, on a lexer in state `st`: it
      succeeds exactly when the expression (matched or not) stops at the end
      of the input, and then returns the expression's tokens, which keep
      those already there; left-over input is invalid syntax where the
      expression stopped; an error never points before the cursor. */
  function LexFrom(input: string, st: State<Category>): (r: Result<seq<Token<Category>>, LexError>)
    requires st.cursor <= |input|
    ensures r.Ok? <==> Expression(input, st).Ok? && Expression(input, st).value.state.cursor == |input|
    ensures r.Ok? ==> r.value == Expression(input, st).value.state.output
    ensures r.Ok? ==> Forward(input, st, State(|input|, r.value))
    ensures Expression(input, st).Ok? && r.Err? ==>
      r.error == LexError(Expression(input, st).value.state.cursor, InvalidSyntax)
    ensures r.Err? ==> st.cursor <= r.error.offset
  {
    var e :- Expression(input, st);
    Finalize(input, e.state)
  }

  /** The module-level `lex`: a fresh lexer (cursor 0, no tokens) reads one
      expression, whether or not one is there, then `finalize`. */
  function Lex(input: string): Result<seq<Token<Category>>, LexError> {
    LexFrom(input, State(0, []))
  }
}
