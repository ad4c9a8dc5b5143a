/** Properties of the lang lexer: the shape of what a term emits, when the
    lexer finds nothing at all, what a failed term leaves behind, and the
    error cases. */
module LangProperties {
  import opened Results
  import opened Scanner
  import opened LangLexer

  /** A value can start at `c`: a `(`, or a character of `[_a-z0-9]`. */
  predicate ValueStart(input: string, c: nat) {
    c < |input| && (input[c] == '(' || IdentChars.Has(input[c]))
  }

  /** The tokens of one value: an integer or a variable, or a group from
      its `(` to its `)`. */
  predicate ValueTokens(vs: seq<Token<Category>>) {
    || (|vs| == 1 && (vs[0].category == Integer || vs[0].category == Variable))
    || (|vs| >= 2 && vs[0].category == Open && Last(vs).category == Close)
  }

  /** The tokens of one term: prefixes, one value, postfixes. */
  predicate TermTokensAt(ts: seq<Token<Category>>, i: nat, j: nat) {
    && i < j <= |ts|
    && (forall k :: 0 <= k < i ==> ts[k].category == Prefix)
    && ValueTokens(ts[i..j])
    && (forall k :: j <= k < |ts| ==> ts[k].category == Postfix)
  }

  ghost predicate TermTokens(ts: seq<Token<Category>>) {
    exists i: nat, j: nat :: TermTokensAt(ts, i, j)
  }

  /** Every token of `ts` from index `n` on has category `c`. */
  predicate AllFrom(ts: seq<Token<Category>>, n: nat, c: Category) {
    forall k :: n <= k < |ts| ==> ts[k].category == c
  }

  /** The prefix loop appends only `Prefix` tokens. */
  lemma {:induction false} PrefixesOnly(input: string, st: State<Category>)
    requires st.cursor <= |input|
    ensures AllFrom(Prefixes(input, st).output, |st.output|, Prefix)
    decreases |input| - st.cursor
  {
    var m := PrefixOp(input, st);
    if m.matched {
      PrefixesOnly(input, m.state);
      assert Prefixes(input, m.state).output[|st.output|] == m.state.output[|st.output|];
    }
  }

  /** The postfix loop appends only `Postfix` tokens. */
  lemma {:induction false} PostfixesOnly(input: string, st: State<Category>)
    requires st.cursor <= |input|
    ensures AllFrom(Postfixes(input, st).output, |st.output|, Postfix)
    decreases |input| - st.cursor
  {
    var m := PostfixOp(input, st);
    if m.matched {
      PostfixesOnly(input, m.state);
      assert Postfixes(input, m.state).output[|st.output|] == m.state.output[|st.output|];
    }
  }

  /** A value that matched appended the tokens of one value. */
  lemma ValueEmits(input: string, st: State<Category>)
    requires st.cursor <= |input|
    ensures var r := Value(input, st);
      r.Ok? && r.value.matched ==> ValueTokens(r.value.state.output[|st.output|..])
  {
    var r := Value(input, st);
    var open := Match(input, st, "(", Open);
    if r.Ok? && r.value.matched && open.matched {
      var e := Expression(input, open.state);
      var out := r.value.state.output;
      assert out[|st.output|] == e.value.state.output[|st.output|] == open.state.output[|st.output|];
    }
  }

  /** A term that matched appended prefixes, one value and postfixes, in
      that order. */
  lemma TermEmits(input: string, st: State<Category>)
    requires st.cursor <= |input|
    ensures var r := Term(input, st);
      r.Ok? && r.value.matched ==> TermTokens(r.value.state.output[|st.output|..])
  {
    var r := Term(input, st);
    if r.Ok? && r.value.matched {
      var p := Prefixes(input, st);
      var v := Value(input, p);
      assert v.Ok? && v.value.matched && r.value.state == Postfixes(input, v.value.state);
      var out := Postfixes(input, v.value.state).output;
      assert AllFrom(p.output, |st.output|, Prefix) by {
        PrefixesOnly(input, st);
      }
      assert ValueTokens(v.value.state.output[|p.output|..]) by {
        ValueEmits(input, p);
      }
      assert AllFrom(out, |v.value.state.output|, Postfix) by {
        PostfixesOnly(input, v.value.state);
      }
      Assemble(|st.output|, p.output, v.value.state.output, out);
    }
  }

  lemma Assemble(n: nat, p: seq<Token<Category>>, v: seq<Token<Category>>, out: seq<Token<Category>>)
    requires n <= |p| <= |v| <= |out| && p <= v && v <= out
    requires AllFrom(p, n, Prefix) && ValueTokens(v[|p|..]) && AllFrom(out, |v|, Postfix)
    ensures TermTokens(out[n..])
  {
    var ts := out[n..];
    var i := |p| - n;
    var j := |v| - n;
    assert ts[i..j] == v[|p|..];
    assert forall k :: 0 <= k < i ==> ts[k] == p[n + k];
    assert TermTokensAt(ts, i, j);
  }

  /** What a failed term leaves: the cursor where it was, but the output
      with the prefix tokens still on it, because the backup shares the
      output list instead of copying it. */
  lemma TermLeavesPrefixes(input: string, st: State<Category>)
    requires st.cursor <= |input|
    ensures var r := Term(input, st);
      r.Ok? && !r.value.matched ==> r.value.state == State(st.cursor, Prefixes(input, st).output)
  {
  }

  /** `_lex_value` returns `False`, leaving the state alone, exactly when
      no value starts at the cursor. */
  lemma ValueFalse(input: string, st: State<Category>)
    requires st.cursor <= |input|
    ensures Value(input, st) == Ok(Step(false, st)) <==> !ValueStart(input, st.cursor)
  {
    StartsAtChar(input, st.cursor, '(');
  }

  /** `_lex_term` returns `False` exactly when no value starts after the
      prefixes. */
  lemma TermFalse(input: string, st: State<Category>)
    requires st.cursor <= |input|
    ensures var r := Term(input, st);
      (r.Ok? && !r.value.matched) <==> !ValueStart(input, Prefixes(input, st).cursor)
  {
    ValueFalse(input, Prefixes(input, st));
  }

  /** `lex` returns `None` exactly when no value starts after the prefix
      operators at the start of the input. */
  lemma NoneIffNoValue(input: string)
    ensures Lex(input) == Ok(None) <==> !ValueStart(input, Prefixes(input, State(0, [])).cursor)
  {
    var s0: State<Category> := State(0, []);
    TermFalse(input, s0);
  }

  /** The empty input, or one starting with anything but a value or a
      prefix operator (a blank, say), gives `None`. */
  lemma NothingToLex(input: string)
    requires |input| == 0 || (input[0] != '(' && input[0] != '+' && input[0] != '-' && !IdentChars.Has(input[0]))
    ensures Lex(input) == Ok(None)
  {
    var s0: State<Category> := State(0, []);
    assert Prefixes(input, s0) == s0 by {
      if 0 < |input| {
        StartsAtChar(input, 0, '-');
        assert !StartsAt(input, 0, "++") by {
          assert input[0..][0] == input[0];
        }
      }
    }
    NoneIffNoValue(input);
  }

  lemma LexEmpty()
    ensures Lex("") == Ok(None)
  {
    NothingToLex("");
  }

  lemma LexLeadingBlank()
    ensures Lex(" 1") == Ok(None)
  {
    NothingToLex(" 1");
  }

  /** Neither a prefix nor a postfix operator can start at `c`. */
  predicate NoSignAt(input: string, c: nat) {
    c <= |input| && (c == |input| || (input[c] != '+' && input[c] != '-'))
  }

  lemma NoPrefixAt(input: string, st: State<Category>)
    requires NoSignAt(input, st.cursor)
    ensures Prefixes(input, st) == st
  {
    StartsAtChar(input, st.cursor, '-');
    StartsAtPair(input, st.cursor, '+', '+');
  }

  lemma NoPostfixAt(input: string, st: State<Category>)
    requires NoSignAt(input, st.cursor)
    ensures Postfixes(input, st) == st
  {
    StartsAtPair(input, st.cursor, '-', '-');
    StartsAtPair(input, st.cursor, '+', '+');
  }

  lemma NoInfixAt(input: string, st: State<Category>)
    requires st.cursor == |input| || (st.cursor < |input| && input[st.cursor] !in "+-*/")
    ensures ExpressionTail(input, st) == Ok(st)
  {
  }

  /** A run of digits from the cursor to `e` is one `Integer` token. */
  lemma IntegerValue(input: string, st: State<Category>, e: nat)
    requires st.cursor < e && IsRun(input, st.cursor, e, Digits)
    ensures Value(input, st) == Ok(Step(true, State(e, st.output + [Token(st.cursor, Integer, input[st.cursor..e])])))
  {
    RunEndUnique(input, st.cursor, e, Digits);
    StartsAtChar(input, st.cursor, '(');
  }

  /** A run of `[_a-z0-9]` from the cursor to `e` that does not start
      with a digit is one `Variable` token. */
  lemma NameValue(input: string, st: State<Category>, e: nat)
    requires st.cursor < e && IsRun(input, st.cursor, e, IdentChars) && !Digits.Has(input[st.cursor])
    ensures Value(input, st) == Ok(Step(true, State(e, st.output + [Token(st.cursor, Variable, input[st.cursor..e])])))
  {
    RunEndUnique(input, st.cursor, e, IdentChars);
    StartsAtChar(input, st.cursor, '(');
  }

  /** A lone `-` at the end of the input: the term fails, its cursor is
      rewound, but the `Prefix` token it matched stays in the output. */
  lemma LoneMinus(input: string, st: State<Category>)
    requires st.cursor + 1 == |input| && input[st.cursor] == '-'
    ensures Term(input, st) == Ok(Step(false, State(st.cursor, st.output + [Token(st.cursor, Prefix, "-")])))
  {
    var c := st.cursor;
    var m := State(c + 1, st.output + [Token(c, Prefix, "-")]);
    assert Prefixes(input, st) == m by {
      StartsAtChar(input, c, '-');
      StartsAtPair(input, c, '+', '+');
      StartsAtPair(input, c, '-', '-');
      assert PrefixText(input, c) == "-";
      NoPrefixAt(input, m);
    }
    ValueFalse(input, m);
  }

  lemma LeftoverPrefix()
    ensures Term("-", State(0, [])) == Ok(Step(false, State(0, [Token(0, Prefix, "-")])))
  {
    var s0: State<Category> := State(0, []);
    LoneMinus("-", s0);
    assert s0.output + [Token(0, Prefix, "-")] == [Token(0, Prefix, "-")];
  }

  /** `--` and a name: one `Prefix` token `--` (not two `-`), then the
      variable. */
  lemma DoubleMinusName(input: string)
    requires 2 < |input| && input[0] == '-' && input[1] == '-' && !Digits.Has(input[2])
    requires forall i :: 2 <= i < |input| ==> IdentChars.Has(input[i])
    ensures Lex(input) == Ok(Some([Token(0, Prefix, "--"), Token(2, Variable, input[2..])]))
  {
    var s0: State<Category> := State(0, []);
    var s1 := State(2, [Token(0, Prefix, "--")]);
    var s2 := State(|input|, [Token(0, Prefix, "--"), Token(2, Variable, input[2..])]);
    DoubleMinus(input, s0);
    assert Value(input, s1) == Ok(Step(true, s2)) by {
      NameValue(input, s1, |input|);
      assert input[2..|input|] == input[2..];
      assert s1.output + [Token(2, Variable, input[2..])] == s2.output;
    }
    assert Term(input, s0) == Ok(Step(true, s2)) by {
      NoPostfixAt(input, s2);
    }
    NoInfixAt(input, s2);
  }

  /** `--` then no sign: the prefix loop takes one `--` token. The fresh
      lexer state is a parameter pinned by `requires`, here and below,
      because a literal state in the contract is far costlier to unfold. */
  lemma DoubleMinus(input: string, s0: State<Category>)
    requires s0 == State(0, [])
    requires 2 < |input| && input[0] == '-' && input[1] == '-' && input[2] != '+' && input[2] != '-'
    ensures Prefixes(input, s0) == State(2, [Token(0, Prefix, "--")])
  {
    var s1 := State(2, [Token(0, Prefix, "--")]);
    StartsAtPair(input, 0, '+', '+');
    StartsAtPair(input, 0, '-', '-');
    assert PrefixText(input, 0) == "--";
    assert [] + [Token(0, Prefix, "--")] == s1.output;
    NoPrefixAt(input, s1);
  }

  lemma LexDoubleMinus()
    ensures Lex("--x") == Ok(Some([Token(0, Prefix, "--"), Token(2, Variable, "x")]))
  {
    DoubleMinusName("--x");
  }

  /** The term an integer at the start of the input makes when no postfix
      operator follows it. */
  lemma LeadingInteger(input: string, s0: State<Category>, k: nat)
    requires s0 == State(0, [])
    requires 0 < k && IsRun(input, 0, k, Digits) && NoSignAt(input, k)
    ensures Term(input, s0) == Ok(Step(true, State(k, [Token(0, Integer, input[..k])])))
  {
    var s1 := State(k, [Token(0, Integer, input[..k])]);
    NoPrefixAt(input, s0);
    IntegerValue(input, s0, k);
    assert s0.output + [Token(0, Integer, input[0..k])] == s1.output;
    NoPostfixAt(input, s1);
  }

  /** An integer at the start, then a character that is neither an
      operator nor part of the integer: one term is lexed and the rest is
      left over, which is an error. */
  lemma IntegerThenOther(input: string, k: nat)
    requires 0 < k < |input| && IsRun(input, 0, k, Digits)
    requires input[k] !in "+-*/"
    ensures Lex(input) == Err(LexError)
  {
    var s0: State<Category> := State(0, []);
    LeadingInteger(input, s0, k);
    NoInfixAt(input, State(k, [Token(0, Integer, input[..k])]));
  }

  lemma LexSpacedSum()
    ensures Lex("1 + 2") == Err(LexError)
  {
    IntegerThenOther("1 + 2", 1);
  }

  /** A `(` with no value past the prefix operators after it is an error,
      whatever those prefixes are. */
  lemma OpenWithoutExpression(input: string, st: State<Category>)
    requires st.cursor < |input| && input[st.cursor] == '('
    requires !ValueStart(input, Prefixes(input, Match(input, st, "(", Open).state).cursor)
    ensures Value(input, st) == Err(LexError)
  {
    StartsAtChar(input, st.cursor, '(');
    TermFalse(input, Match(input, st, "(", Open).state);
  }

  /** `()` at the cursor: nothing inside the group, so it raises. */
  lemma EmptyParens(input: string, st: State<Category>)
    requires st.cursor + 1 < |input| && input[st.cursor] == '(' && input[st.cursor + 1] == ')'
    ensures Value(input, st) == Err(LexError)
  {
    StartsAtChar(input, st.cursor, '(');
    NoPrefixAt(input, Match(input, st, "(", Open).state);
    OpenWithoutExpression(input, st);
  }

  /** A group raises exactly when its inner expression raises, when no
      value starts after the prefixes inside it, or when no `)` follows the
      inner expression; the missing `)` is the case an unclosed group is. */
  lemma GroupRaises(input: string, st: State<Category>)
    requires st.cursor < |input| && input[st.cursor] == '('
    ensures var inner := Match(input, st, "(", Open).state;
      var e := Expression(input, inner);
      Value(input, st).Err? <==>
        || e.Err?
        || !ValueStart(input, Prefixes(input, inner).cursor)
        || !StartsAt(input, e.value.state.cursor, ")")
  {
    StartsAtChar(input, st.cursor, '(');
    TermFalse(input, Match(input, st, "(", Open).state);
  }

  /** `_backup` records only the cursor and the output list is shared, so
      restoring gives back the state the backup was taken in exactly when no
      token was appended since. */
  lemma RestoreRecovers(st: State<Category>, later: State<Category>)
    requires st.output <= later.output
    ensures Restore(later, TakeBackup(st)) == st <==> |later.output| == |st.output|
  {
  }

  /** A group at the start of the input that raises makes `lex` raise. */
  lemma LeadingGroupRaises(input: string, s0: State<Category>)
    requires s0 == State(0, []) && 0 < |input| && input[0] == '('
    requires Value(input, s0).Err?
    ensures Lex(input) == Err(LexError)
  {
    NoPrefixAt(input, s0);
    assert Term(input, s0).Err?;
    assert Expression(input, s0).Err?;
    assert LexFrom(input, s0).Err?;
    assert LexFrom(input, s0).error == LexError;
  }

  lemma LexEmptyGroup()
    ensures Lex("()") == Err(LexError)
  {
    var s0: State<Category> := State(0, []);
    EmptyParens("()", s0);
    LeadingGroupRaises("()", s0);
  }

  /** `-)` at the cursor: one prefix `-` is matched, and the value would be
      looked for at the `)`. */
  lemma MinusThenClose(input: string, st: State<Category>)
    requires st.cursor + 1 < |input| && input[st.cursor] == '-' && input[st.cursor + 1] == ')'
    ensures Prefixes(input, st).cursor == st.cursor + 1
  {
    StartsAtChar(input, st.cursor, '-');
    StartsAtPair(input, st.cursor, '+', '+');
    StartsAtPair(input, st.cursor, '-', '-');
    var m := PrefixOp(input, st);
    assert m.matched && m.state.cursor == st.cursor + 1;
    NoPrefixAt(input, m.state);
  }

  /** `(-)` at the cursor: the prefix `-` is matched but no value follows
      it, so the group raises. */
  lemma MinusGroup(input: string, st: State<Category>)
    requires st.cursor + 2 < |input|
    requires input[st.cursor] == '(' && input[st.cursor + 1] == '-' && input[st.cursor + 2] == ')'
    ensures Value(input, st) == Err(LexError)
  {
    StartsAtChar(input, st.cursor, '(');
    MinusThenClose(input, Match(input, st, "(", Open).state);
    OpenWithoutExpression(input, st);
  }

  lemma LexMinusGroup()
    ensures Lex("(-)") == Err(LexError)
  {
    var s0: State<Category> := State(0, []);
    MinusGroup("(-)", s0);
    LeadingGroupRaises("(-)", s0);
  }

  /** An operator with no value past the prefix operators after it is an
      error, whatever those prefixes are. */
  lemma MissingTerm(input: string, st: State<Category>)
    requires st.cursor < |input| && input[st.cursor] in "+-*/"
    requires !ValueStart(input, Prefixes(input, InfixOp(input, st).state).cursor)
    ensures ExpressionTail(input, st) == Err(LexError)
  {
    TermFalse(input, InfixOp(input, st).state);
  }

  /** An integer and an operator with nothing after it. */
  lemma DanglingOperator(input: string, k: nat)
    requires 0 < k && k + 1 == |input| && IsRun(input, 0, k, Digits)
    requires input[k] in "+-*/"
    ensures Lex(input) == Err(LexError)
  {
    var s0: State<Category> := State(0, []);
    var s1 := State(k, [Token(0, Integer, input[..k])]);
    assert Term(input, s0) == Ok(Step(true, s1)) by {
      LeadingValue(input, s0, k);
      assert Postfixes(input, s1) == s1 by {
        StartsAtPair(input, k, '+', '+');
        StartsAtPair(input, k, '-', '-');
      }
    }
    NoPrefixAt(input, InfixOp(input, s1).state);
    MissingTerm(input, s1);
  }

  /** Digits at the start of the input are the first value. */
  lemma LeadingValue(input: string, s0: State<Category>, k: nat)
    requires s0 == State(0, [])
    requires 0 < k && IsRun(input, 0, k, Digits)
    ensures Prefixes(input, s0) == s0
    ensures Value(input, s0) == Ok(Step(true, State(k, [Token(0, Integer, input[..k])])))
  {
    NoPrefixAt(input, s0);
    IntegerValue(input, s0, k);
    assert s0.output + [Token(0, Integer, input[0..k])] == [Token(0, Integer, input[..k])];
  }

  lemma LexDanglingOperator()
    ensures Lex("1*") == Err(LexError)
  {
    DanglingOperator("1*", 1);
  }

  /** A `(` and an integer that runs to the end: the `)` is missing. */
  lemma UnclosedGroup(input: string)
    requires 1 < |input| && input[0] == '(' && IsRun(input, 1, |input|, Digits)
    ensures Lex(input) == Err(LexError)
  {
    var s0: State<Category> := State(0, []);
    var s1 := State(1, [Token(0, Open, "(")]);
    var s2 := State(|input|, s1.output + [Token(1, Integer, input[1..|input|])]);
    assert Match(input, s0, "(", Open) == Step(true, s1) by {
      StartsAtChar(input, 0, '(');
      assert input[0..1] == "(";
    }
    assert Expression(input, s1) == Ok(Step(true, s2)) by {
      NoPrefixAt(input, s1);
      IntegerValue(input, s1, |input|);
      NoPostfixAt(input, s2);
      NoInfixAt(input, s2);
    }
    assert Value(input, s0) == Err(LexError) by {
      StartsAtChar(input, |input|, ')');
    }
    assert Term(input, s0) == Err(LexError) by {
      NoPrefixAt(input, s0);
    }
  }

  lemma LexUnclosedGroup()
    ensures Lex("(1") == Err(LexError)
  {
    UnclosedGroup("(1");
  }
}
