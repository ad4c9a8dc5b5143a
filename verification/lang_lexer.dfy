/** The lexer of lang/lexer.py, the earlier variant. Its grammar:

      expression ::= term (INFIX term)*
      term       ::= PREFIX* value POSTFIX*
      value      ::= '(' expression ')' / INTEGER / IDENTIFIER

    There is no whitespace handling and no call rule, the operators may be
    two characters long, and errors carry no offset. The one trap is the
    backup `_lex_term` takes: it holds the output list itself rather than a
    copy, so restoring it rewinds the cursor but keeps every token appended
    since. */
module LangLexer {
  import opened Results
  import opened Scanner

  datatype Category = Integer | Variable | Open | Close | Comma | Prefix | Infix | Postfix

  /** The bare `raise LexerError`: no offset, no message. */
  datatype LexError = LexError

  /** The operators, in the order the lexer tries them. */
  const PrefixOperators: seq<string> := ["++", "--", "-"]
  const InfixOperators: seq<string> := ["+", "-", "*", "/"]
  const PostfixOperators: seq<string> := ["++", "--"]

  /** `st'` is no further back than `st`, still inside the input, and has
      kept the tokens of `st`. */
  predicate Forward(input: string, st: State<Category>, st': State<Category>) {
    st.cursor <= st'.cursor <= |input| && st.output <= st'.output
  }

  /** What `_backup` returns: the cursor, and a reference to the output
      list, which is the very list the lexer goes on appending to. */
  datatype Backup = Backup(cursor: nat)

  function TakeBackup(st: State<Category>): Backup {
    Backup(st.cursor)
  }

  /** `_restore`: the cursor comes back; the output list is the same object
      it always was, so the current output stays. */
  function Restore(st: State<Category>, b: Backup): State<Category> {
    State(b.cursor, st.output)
  }

  /** The prefix operator that trying `++`, `--`, `-` in turn finds at `c`:
      the longest one. */
  function PrefixText(input: string, c: nat): string {
    if StartsAt(input, c, "++") then "++" else if StartsAt(input, c, "--") then "--" else "-"
  }

  /** The postfix operator that trying `++`, `--` in turn finds at `c`. */
  function PostfixText(input: string, c: nat): string {
    if StartsAt(input, c, "++") then "++" else "--"
  }

  /** `_lex_prefix`. */
  function PrefixOp(input: string, st: State<Category>): (r: Step<Category>)
    requires st.cursor <= |input|
    ensures r.matched <==> StartsAt(input, st.cursor, "++") || StartsAt(input, st.cursor, "-")
    ensures r.matched ==>
      && r.state.cursor == st.cursor + |PrefixText(input, st.cursor)|
      && r.state.output == st.output + [Token(st.cursor, Prefix, PrefixText(input, st.cursor))]
    ensures !r.matched ==> r.state == st
  {
    PrefixChoice(input, st.cursor);
    MatchAny(input, st, PrefixOperators, Prefix)
  }

  /** `_lex_postfix`. */
  function PostfixOp(input: string, st: State<Category>): (r: Step<Category>)
    requires st.cursor <= |input|
    ensures r.matched <==> StartsAt(input, st.cursor, "++") || StartsAt(input, st.cursor, "--")
    ensures r.matched ==>
      && r.state.cursor == st.cursor + 2
      && r.state.output == st.output + [Token(st.cursor, Postfix, PostfixText(input, st.cursor))]
    ensures !r.matched ==> r.state == st
  {
    PostfixChoice(input, st.cursor);
    MatchAny(input, st, PostfixOperators, Postfix)
  }

  /** `_lex_infix`: one of the characters `+ - * /`. */
  function InfixOp(input: string, st: State<Category>): (r: Step<Category>)
    requires st.cursor <= |input|
    ensures r.matched <==> st.cursor < |input| && input[st.cursor] in "+-*/"
    ensures r.matched ==>
      && r.state.cursor == st.cursor + 1
      && r.state.output == st.output + [Token(st.cursor, Infix, [input[st.cursor]])]
    ensures !r.matched ==> r.state == st
  {
    CharChoice(input, st.cursor, InfixOperators, "+-*/");
    MatchAny(input, st, InfixOperators, Infix)
  }

  lemma MinusOfDoubleMinus(input: string, c: nat)
    requires StartsAt(input, c, "--")
    ensures StartsAt(input, c, "-")
  {
    assert input[c..][..1] == input[c..][..2][..1];
  }

  lemma PrefixChoice(input: string, c: nat)
    requires c <= |input|
    ensures (exists i :: 0 <= i < |PrefixOperators| && StartsAt(input, c, PrefixOperators[i]))
      <==> StartsAt(input, c, "++") || StartsAt(input, c, "-")
    ensures forall i :: FirstMatch(input, c, PrefixOperators, i) ==> PrefixOperators[i] == PrefixText(input, c)
  {
    if StartsAt(input, c, "--") {
      MinusOfDoubleMinus(input, c);
    }
    if StartsAt(input, c, "++") {
      assert StartsAt(input, c, PrefixOperators[0]);
    } else if StartsAt(input, c, "-") {
      assert StartsAt(input, c, PrefixOperators[2]);
    }
    forall i | FirstMatch(input, c, PrefixOperators, i)
      ensures PrefixOperators[i] == PrefixText(input, c)
    {
      if i >= 1 {
        assert !StartsAt(input, c, PrefixOperators[0]);
      }
      if i == 2 {
        assert !StartsAt(input, c, PrefixOperators[1]);
      }
    }
  }

  lemma PostfixChoice(input: string, c: nat)
    requires c <= |input|
    ensures (exists i :: 0 <= i < |PostfixOperators| && StartsAt(input, c, PostfixOperators[i]))
      <==> StartsAt(input, c, "++") || StartsAt(input, c, "--")
    ensures forall i :: FirstMatch(input, c, PostfixOperators, i) ==> PostfixOperators[i] == PostfixText(input, c)
  {
    if StartsAt(input, c, "++") {
      assert StartsAt(input, c, PostfixOperators[0]);
    } else if StartsAt(input, c, "--") {
      assert StartsAt(input, c, PostfixOperators[1]);
    }
  }


  /** `while self._lex_prefix(): pass`. */
  function Prefixes(input: string, st: State<Category>): (r: State<Category>)
    requires st.cursor <= |input|
    ensures Forward(input, st, r)
    ensures !StartsAt(input, r.cursor, "++") && !StartsAt(input, r.cursor, "-")
    decreases |input| - st.cursor
  {
    var m := PrefixOp(input, st);
    if m.matched then Prefixes(input, m.state) else st
  }

  /** `while self._lex_postfix(): pass`. */
  function Postfixes(input: string, st: State<Category>): (r: State<Category>)
    requires st.cursor <= |input|
    ensures Forward(input, st, r)
    ensures !StartsAt(input, r.cursor, "++") && !StartsAt(input, r.cursor, "--")
    decreases |input| - st.cursor
  {
    var m := PostfixOp(input, st);
    if m.matched then Postfixes(input, m.state) else st
  }

  /** `lex_expression`. */
  function Expression(input: string, st: State<Category>): (r: Result<Step<Category>, LexError>)
    requires st.cursor <= |input|
    ensures r.Ok? ==> Forward(input, st, r.value.state)
    ensures r.Ok? && !r.value.matched ==> r.value.state.cursor == st.cursor
    decreases |input| - st.cursor, 3
  {
    var t :- Term(input, st);
    if !t.matched then
      Ok(t)
    else
      var st' :- ExpressionTail(input, t.state);
      Ok(Step(true, st'))
  }

  /** `while self._lex_infix(): ...`: after an operator a term is required. */
  function ExpressionTail(input: string, st: State<Category>): (r: Result<State<Category>, LexError>)
    requires st.cursor <= |input|
    ensures r.Ok? ==> Forward(input, st, r.value)
    decreases |input| - st.cursor, 2
  {
    var op := InfixOp(input, st);
    if !op.matched then
      Ok(st)
    else
      var t :- Term(input, op.state);
      if !t.matched then Err(LexError) else ExpressionTail(input, t.state)
  }

  /** `_lex_term`: prefixes, a value, postfixes. Without a value the backup
      is restored, which rewinds the cursor only. */
  function Term(input: string, st: State<Category>): (r: Result<Step<Category>, LexError>)
    requires st.cursor <= |input|
    ensures r.Ok? ==> Forward(input, st, r.value.state)
    ensures r.Ok? && !r.value.matched ==> r.value.state.cursor == st.cursor
    ensures r.Ok? && r.value.matched ==> st.cursor < r.value.state.cursor
    decreases |input| - st.cursor, 2
  {
    var backup := TakeBackup(st);
    var v :- Value(input, Prefixes(input, st));
    if !v.matched then
      Ok(Step(false, Restore(v.state, backup)))
    else
      Ok(Step(true, Postfixes(input, v.state)))
  }

  /** `_lex_value`: a group, an integer, or a variable. Once `(` is matched
      a missing expression or `)` is an error. */
  function Value(input: string, st: State<Category>): (r: Result<Step<Category>, LexError>)
    requires st.cursor <= |input|
    ensures r.Ok? ==> Forward(input, st, r.value.state)
    ensures r.Ok? && !r.value.matched ==> r.value.state == st
    ensures r.Ok? && r.value.matched ==> st.cursor < r.value.state.cursor
    decreases |input| - st.cursor, 1
  {
    var open := Match(input, st, "(", Open);
    if open.matched then
      var e :- Expression(input, open.state);
      if !e.matched then
        Err(LexError)
      else
        var close := Match(input, e.state, ")", Close);
        if close.matched then Ok(close) else Err(LexError)
    else
      var integer := Regex(input, st, Digits, Integer);
      if integer.matched then
        Ok(integer)
      else
        Ok(Regex(input, st, IdentChars, Variable))
  }

  /** The module-level `lex`: a fresh lexer (cursor 0, no tokens) reads
      one expression. */
  function Lex(input: string): Result<Option<seq<Token<Category>>>, LexError> {
    LexFrom(input, State(0, []))
  }

  /** `lex_expression` and what `lex` makes of it, on a lexer in state `st`:
      `None` exactly when no expression is there, a list exactly when the
      expression reaches the end of the input (its tokens, which keep those
      already there), and an error otherwise. */
  function LexFrom(input: string, st: State<Category>): (r: Result<Option<seq<Token<Category>>>, LexError>)
    requires st.cursor <= |input|
    ensures r == Ok(None) <==> Expression(input, st).Ok? && !Expression(input, st).value.matched
    ensures r.Ok? && r.value.Some? <==>
      && Expression(input, st).Ok?
      && Expression(input, st).value.matched
      && Expression(input, st).value.state.cursor == |input|
    ensures r.Ok? && r.value.Some? ==> r.value.value == Expression(input, st).value.state.output
    ensures r.Ok? && r.value.Some? ==> Forward(input, st, State(|input|, r.value.value))
  {
    var e :- Expression(input, st);
    if !e.matched then
      Ok(None)
    else if e.state.cursor < |input| then
      Err(LexError)
    else
      Ok(Some(e.state.output))
  }
}
