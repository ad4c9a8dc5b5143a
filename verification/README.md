# Two recursive-descent lexers for a small expression language

This project models the two hand-written lexers of a small arithmetic
expression language, calc/lexer.py and its earlier variant lang/lexer.py, and
proves properties about them. Each lexer turns an input string into a flat list
of `Token(offset, category, value)` records, or raises `LexerError`.

- **calc/lexer.py** skips spaces and tabs and emits no tokens for them. It
  tells a plain identifier (`VARIABLE`) apart from a call (`INVOKE`) by trying
  the call speculatively. On entry to `_lex_value` it takes a backup: the cursor
  and a copy of the output. If no `(` follows the identifier, it restores that
  backup. Errors carry an offset and a message: a missing expression, a missing
  `)`, or trailing input.
- **lang/lexer.py** has the operators `++`, `--` and `-` as prefixes and
  `++`, `--` as postfixes. It has no whitespace handling and no calls. Its
  `LexerError` carries nothing. Its `_backup` keeps a reference to the output
  list rather than a copy, so `_restore` rewinds only the cursor. Tokens
  appended after the backup stay in the output.

## Layout

| file | module | contents |
|---|---|---|
| results.dfy | `Results` | `Option` and `Result`. A raised `LexerError` is an `Err`. |
| scanner.dfy | `Scanner` | Shared by both lexers: `Token`, the lexer `State` (cursor, output), `_match` as `Match`, and `_regex` as `Regex`. The three regular expressions become greedy runs of a character class. |
| calc_lexer.dfy | `CalcLexer` | One function per rule of calc/lexer.py. |
| calc_invariant.dfy | `CalcInvariant` | What the calc output means, and the proof that every rule keeps it. |
| calc_properties.dfy | `CalcProperties` | Backtracking, commitment, error locations and whole-input results of calc. |
| lang_lexer.dfy | `LangLexer` | One function per rule of lang/lexer.py, with the aliasing backup. |
| lang_invariant.dfy | `LangInvariant` | What the lang output means, and the proof that every rule keeps it. |
| lang_properties.dfy | `LangProperties` | Token shape of a term, the `None` result, what a failed term leaves, and the errors. |

Each method `_lex_x` becomes a function from the lexer state to
`Result<Step, LexError>`.
- A `Step` is the boolean the method returns together with the state it leaves.
- `while` loops become recursive functions such as `ExpressionTail`,
  `Prefixes` and `ArgumentsTail`.
- The rules are mutually recursive. They terminate on the pair (unconsumed
  input, rule rank), because each re-entry into the expression rule follows a
  consumed `(`, `,` or identifier.
- `Lex` is the module-level `lex`. It runs `LexFrom` on a fresh lexer, which is
  cursor 0 with no tokens.

What a token stream means is stated once per lexer, in the invariant modules.
- `Lexeme`: a token is a non-empty slice of the input at its offset, of the
  shape its category demands. Integers and identifiers are maximal runs, and an
  identifier never starts with a digit.
- `Valid`: the tokens are lexemes, in order, and before the cursor. Together
  they spell the consumed input, without blanks for calc and exactly for lang.
- `Located` (calc only): where an error may point, by kind. A missing `)` is
  at some `(`. A missing expression is at some `(` or `,`, or just past an
  infix operator and its blanks. Trailing input is inside the input. `Located`
  does not say which `(` or `,`. The exact offsets of each rule's own errors
  are stated in `CalcProperties`.

## Model

| member | source | states |
|---|---|---|
| Scanner.RunEnd | calc/lexer.py:73-85 | An anchored, greedy `^[...]+` match stops at the end of the longest run of the class. |
| Scanner.RunEndUnique | calc/lexer.py:97-98 | The longest run from a position is unique, so any run end found by other means is where the regex stops. |
| Scanner.Match | calc/lexer.py:60-71 | `_match` succeeds iff the input at the cursor starts with the literal. On success the cursor moves past it and exactly one token (old cursor, category, that text) is appended. On failure nothing changes. |
| Scanner.Regex | calc/lexer.py:73-85 | `_regex` succeeds iff the cursor character is in the class. It then appends one token holding the whole maximal run at the cursor. On failure nothing changes. |
| Scanner.MatchAny | calc/lexer.py:159-163 | `for op in ops: if self._match(op): return True` succeeds iff some operator matches. The token is the first operator in the list order that matches. |
| Scanner.CharChoice | calc/lexer.py:159-163 | Trying one-character operators in turn, as both `_lex_infix` loops do, finds one exactly when the cursor character is among them, and the operator found is that character. |
| Scanner.StripAppend | calc/lexer.py:165-170 | Removing blanks distributes over concatenation. This lets skipped whitespace vanish from the token text. |
| CalcLexer.Whitespace | calc/lexer.py:165-170 | `_lex_whitespace` moves over exactly the maximal run of spaces and tabs and leaves the output unchanged. |
| CalcLexer.Prefixes | calc/lexer.py:143-144 | The prefix loop only moves forward and keeps the tokens. It stops exactly where no `-` remains. |
| CalcLexer.InfixOp | calc/lexer.py:159-163 | `_lex_infix` matches iff the cursor character is one of `+-*/=`. It then appends that one character as an `Infix` token. |
| CalcLexer.Expression | calc/lexer.py:172-186 | `_lex_expression` never moves back and never drops tokens. When it returns `False` it has only skipped blanks. Its errors lie at or after the cursor. |
| CalcLexer.ExpressionTail | calc/lexer.py:180-184 | The infix loop only moves forward and keeps the tokens. Its errors lie at or after the cursor. |
| CalcLexer.Term | calc/lexer.py:140-152 | A failed `_lex_term` leaves cursor and output exactly as on entry, even after matching prefix `-` tokens. A successful one consumes at least one character. |
| CalcLexer.Value | calc/lexer.py:99-138 | A failed `_lex_value` leaves the state as on entry. A successful one consumes input and keeps the tokens it was given. |
| CalcLexer.Group | calc/lexer.py:103-112 | A group either succeeds or fails with an error at or after its `(`. |
| CalcLexer.Call | calc/lexer.py:119-132 | The call rule always yields a value. Its error never lies before the identifier. |
| CalcLexer.CloseParen | calc/lexer.py:109-112 | The closing parenthesis is matched iff the input has `)` at the cursor. Otherwise the error is "missing closing parenthesis" at the offset of the `(` being closed. |
| CalcLexer.Arguments | calc/lexer.py:87-95 | `_lex_arguments` only moves forward and keeps the tokens. |
| CalcLexer.ArgumentsTail | calc/lexer.py:91-93 | The comma loop only moves forward and keeps the tokens. Its errors lie at or after the cursor. |
| CalcLexer.Finalize | calc/lexer.py:191-195 | `finalize` returns the output iff the whole input was consumed. Otherwise it fails with "invalid syntax" at the cursor. |
| CalcLexer.LexFrom | calc/lexer.py:188-195 | Reading one expression and then `finalize`, from any lexer state, succeeds exactly when the expression (matched or not) stops at the end of the input. It then returns the expression's tokens, which keep those already there. When the expression stops short, the error is invalid syntax where it stopped. No error points before the cursor. |
| CalcLexer.Lex | calc/lexer.py:197-201 | The module-level `lex` is `LexFrom` on a fresh lexer. It has no contract of its own; what it promises is stated by CalcInvariant.LexSound and the lemmas named after inputs. |
| CalcInvariant.LexSound | calc/lexer.py:188-201 | A successful `lex` returns lexemes at strictly increasing, non-overlapping offsets. Their texts spell the whole input with the blanks removed. A failing `lex` reports an error that is `Located`: a missing `)` at some `(`, a missing expression at some `(` or `,` or just past an infix operator and its blanks, and invalid syntax inside the input. |
| CalcInvariant.ExpressionSound | calc/lexer.py:172-186 | `_lex_expression` keeps the lexer's invariant and raises only located errors. |
| CalcInvariant.TailSound | calc/lexer.py:180-184 | The infix loop keeps the invariant. Its errors, its own and those of the terms it reads, are `Located`. |
| CalcInvariant.TermSound | calc/lexer.py:140-152 | `_lex_term` keeps the invariant, restored backup included. |
| CalcInvariant.ValueSound | calc/lexer.py:99-138 | `_lex_value` keeps the invariant on all four rules and raises only located errors. |
| CalcInvariant.GroupSound | calc/lexer.py:103-112 | A group keeps the invariant. Its errors, its own and those of the inner expression, are `Located`. |
| CalcInvariant.CallSound | calc/lexer.py:119-132 | The call rule keeps the invariant, also when no `(` follows and the backup is restored, and its errors are `Located`. That the name is then a `Variable` token is stated by CalcProperties.IdentifierBacktracks. |
| CalcInvariant.ArgumentsSound | calc/lexer.py:87-95 | `_lex_arguments` keeps the invariant. |
| CalcInvariant.ArgumentsTailSound | calc/lexer.py:91-93 | The comma loop keeps the invariant. Its errors, its own and those of the expressions it reads, are `Located`. |
| CalcInvariant.PrefixesSound | calc/lexer.py:154-157 | Each prefix `-` is a lexeme and keeps the invariant. |
| CalcInvariant.SkipKeepsValid | calc/lexer.py:165-170 | Skipping whitespace keeps the invariant. The blanks add nothing to the token text. |
| CalcInvariant.MatchKeepsValid | calc/lexer.py:60-71 | A punctuation or operator token appended by `_match` keeps the invariant. |
| CalcInvariant.RegexKeepsValid | calc/lexer.py:73-85 | A maximal-run token appended by `_regex` keeps the invariant. |
| CalcInvariant.AfterInfixLocated | calc/lexer.py:180-183 | The cursor after an operator and its blanks counts as a located "expected expression" position. |
| CalcProperties.IdentifierBacktracks | calc/lexer.py:119-136 | A name not followed by blanks and `(` gives exactly one `Variable` token. It is appended to the output as it was on entry to `_lex_value`, and no `Invoke` token survives. |
| CalcProperties.CallCommits | calc/lexer.py:122-130 | Once `(` follows a name, the result starts with the `Invoke` token and that `(` and ends with `)`. Otherwise it is an error at or after the `(`. The IDENTIFIER rule is never retried. |
| CalcProperties.NoValueAt | calc/lexer.py:99-138 | Without a `(` or identifier character at the cursor, `_lex_value` returns `False` and changes nothing. |
| CalcProperties.NoExpressionAt | calc/lexer.py:172-176 | When nothing a term can start with follows the blanks, `_lex_expression` returns `False` having skipped only the blanks. |
| CalcProperties.ValueFalse | calc/lexer.py:99-138 | `_lex_value` returns `False`, leaving the state alone, exactly when no `(` or identifier character is at the cursor. |
| CalcProperties.TermFalse | calc/lexer.py:140-152 | `_lex_term` returns `False` with its backup restored exactly when no value starts past the prefix `-`s and the blanks after them. |
| CalcProperties.ExpressionFalse | calc/lexer.py:172-176 | `_lex_expression` returns `False`, having skipped only the leading blanks, exactly when no term starts after them. |
| CalcProperties.ExpressionFalseState | calc/lexer.py:172-176 | An expression that returned `False` moved over exactly the leading blanks and appended nothing. |
| CalcProperties.NoArguments | calc/lexer.py:87-89 | A `)` after blanks means there are no arguments, and no error. |
| CalcProperties.CloseAt | calc/lexer.py:127-130 | A `)` at the cursor closes the call or group with one `Close` token. |
| CalcProperties.NoArgumentsAfterOpen | calc/lexer.py:122-125 | `(`, blanks and `)` give empty arguments. |
| CalcProperties.CloseAfterBlanks | calc/lexer.py:122-130 | `(`, blanks and `)` give exactly an `Open` and a `Close` token. |
| CalcProperties.EmptyParens | calc/lexer.py:119-130 | The call rule accepts an empty argument list, blanks inside included. |
| CalcProperties.EmptyCall | calc/lexer.py:119-130 | A name, blanks, `(`, blanks, `)` yields `Invoke`, `Open`, `Close`. |
| CalcProperties.EmptyCallShape | calc/lexer.py:119-123 | In `f ( )` the name is `f` and the blank runs end at the `(` and the `)`. |
| CalcProperties.EmptyCallTerm | calc/lexer.py:140-152 | `f ( )` is one term of three tokens. |
| CalcProperties.EmptyCallLex | calc/lexer.py:197-201 | `f ( )` lexes to `[Invoke f, Open, Close]`. |
| CalcProperties.LexEmptyCall | calc/lexer.py:197-201 | `lex("f ( )")` is `[Invoke f, Open, Close]`. |
| CalcProperties.BlankInputLexesToNothing | calc/lexer.py:197-201 | Empty or whitespace-only input lexes to the empty list. |
| CalcProperties.TermIsValue | calc/lexer.py:140-148 | Without `-` or a blank at the cursor, `_lex_term` is just `_lex_value`. |
| CalcProperties.TailStops | calc/lexer.py:180 | Without an operator at the cursor, the infix loop stops at once. |
| CalcProperties.SingleName | calc/lexer.py:197-201 | Input that is one name lexes to one `Variable` token. |
| CalcProperties.LexVariable | calc/lexer.py:197-201 | `lex("f")` is `[Token(0, VARIABLE, "f")]`. |
| CalcProperties.IntegerValue | calc/lexer.py:114-116 | A digit at the cursor makes the INTEGER rule take the whole run of digits as one token. |
| CalcProperties.IntegerTerm | calc/lexer.py:140-152 | A run of digits is a term of one `Integer` token. |
| CalcProperties.SingleTerm | calc/lexer.py:172-186 | A term with no operator after it and its blanks is the whole expression. |
| CalcProperties.LeadingIntegerTerm | calc/lexer.py:140-152 | Digits at the start of the input form the first term. |
| CalcProperties.IntegerThenBlank | calc/lexer.py:172-186 | An integer followed by a blank and a digit is an expression that stops after the blank. |
| CalcProperties.LexTrails | calc/lexer.py:191-193 | An expression that stops short of the end makes `lex` fail with "invalid syntax" at the first unconsumed offset. |
| CalcProperties.TrailingInteger | calc/lexer.py:191-201 | Two integers separated by a blank fail at the second one. |
| CalcProperties.LexTrailingInput | calc/lexer.py:191-201 | `lex("1 2")` fails with "invalid syntax" at offset 2. |
| CalcProperties.NoTermAt | calc/lexer.py:140-152 | Without anything a term can start with, `_lex_term` returns `False` and changes nothing. |
| CalcProperties.MissingOperand | calc/lexer.py:180-183 | An infix operator with no value past the prefixes and blanks after it fails with "expected expression" just past the operator and its blanks, before any prefix `-` matched there. |
| CalcProperties.DanglingOperator | calc/lexer.py:180-183 | An integer and a final operator fail with "expected expression" at the end of the input. |
| CalcProperties.DanglingExpression | calc/lexer.py:172-186 | On an integer and a final operator the expression rule fails with "expected expression" at the end of the input. |
| CalcProperties.LexDanglingOperator | calc/lexer.py:180-183 | `lex("1+")` fails with "expected expression" at offset 2. |
| CalcProperties.OnlyPrefixes | calc/lexer.py:140-150 | Input of only `-` leaves no tokens, because the term restores its copied backup. `finalize` then reports "invalid syntax" at offset 0. |
| CalcProperties.LexLoneMinus | calc/lexer.py:140-150 | `lex("-")` fails with "invalid syntax" at offset 0. |
| CalcProperties.IntegerExpression | calc/lexer.py:172-186 | Digits running to the end of the input are an expression that consumes them all. |
| CalcProperties.UnclosedGroup | calc/lexer.py:103-112 | `(` followed by an integer and nothing else fails with "missing closing parenthesis" at the `(`. |
| CalcProperties.UnclosedGroupAt | calc/lexer.py:103-112 | A `(` followed by digits to the end of the input fails with "missing closing parenthesis" at that `(`. |
| CalcProperties.LexUnclosedGroup | calc/lexer.py:103-112 | `lex("(1")` fails with "missing closing parenthesis" at offset 0. |
| CalcProperties.EmptyGroup | calc/lexer.py:103-107 | `_lex_value` at a `(` fails with "expected expression" at that `(` exactly when no value starts past the blanks and prefixes inside it. Nested errors lie further on. |
| CalcProperties.GroupAtEnd | calc/lexer.py:103-107 | `(`, blanks and `)` fail with "expected expression" at the `(`. |
| CalcProperties.MinusThenClose | calc/lexer.py:143-146 | On `-)` the prefix loop takes the `-`, and the value is looked for at the `)`. |
| CalcProperties.MinusGroup | calc/lexer.py:103-107 | `(-)` fails with "expected expression" at the `(`: the prefix is matched, no value follows, and the term restores its backup. |
| CalcProperties.LexMinusGroup | calc/lexer.py:103-107 | `lex("(-)")` fails with "expected expression" at offset 0. |
| CalcProperties.GroupUnclosed | calc/lexer.py:103-112 | `_lex_value` at a `(` fails with "missing closing parenthesis" at that `(` exactly when the inner expression matched and no `)` follows it. |
| CalcProperties.LexEmptyGroup | calc/lexer.py:103-107 | `lex("( )")` fails with "expected expression" at offset 0. |
| CalcProperties.UnclosedCall | calc/lexer.py:119-128 | Once a name, blanks and `(` are read, the value fails with "missing closing parenthesis" at that `(` exactly when the arguments raise nothing and no `)` follows them. |
| CalcProperties.UnclosedCallArgs | calc/lexer.py:119-128 | In `f(1` the argument is read, no `)` follows it, and `_lex_value` fails with "missing closing parenthesis" at the `(`, offset 1. |
| CalcProperties.UnclosedCallLex | calc/lexer.py:197-201 | `f(1` fails to lex with "missing closing parenthesis" at offset 1. |
| CalcProperties.LexUnclosedCall | calc/lexer.py:119-128 | `lex("f(1")` fails with "missing closing parenthesis" at offset 1. |
| CalcProperties.LeadingValueFails | calc/lexer.py:140-152 | A value at the start of the input, with no `-` or blank before it, that raises makes `lex` raise the same error. |
| CalcProperties.TrailingComma | calc/lexer.py:91-93 | The comma loop fails with "expected expression" at the comma's own offset exactly when no value starts past the blanks and prefixes after it. |
| LangLexer.PrefixOp | lang/lexer.py:120-124 | `_lex_prefix` matches iff the cursor starts `++` or `-`. The token is the longest of `++`, `--`, `-` found there. |
| LangLexer.PostfixOp | lang/lexer.py:132-136 | `_lex_postfix` matches only `++` and `--`, which are two characters long. |
| LangLexer.InfixOp | lang/lexer.py:126-130 | `_lex_infix` matches iff the cursor character is one of `+-*/`, as a one-character `Infix` token. |
| LangLexer.PrefixChoice | lang/lexer.py:120-124 | Trying `++`, `--`, `-` in order finds the longest prefix operator at the cursor. |
| LangLexer.PostfixChoice | lang/lexer.py:132-136 | Trying `++`, `--` finds an operator exactly when one of them is there. |
| LangLexer.Prefixes | lang/lexer.py:108-109 | The prefix loop stops exactly where neither `++` nor `-` follows. |
| LangLexer.Postfixes | lang/lexer.py:115-116 | The postfix loop stops exactly where neither `++` nor `--` follows. |
| LangLexer.Expression | lang/lexer.py:138-146 | `lex_expression` never moves back and never drops tokens. On `False` the cursor is where it was. |
| LangLexer.ExpressionTail | lang/lexer.py:142-144 | The infix loop only moves forward and keeps the tokens. |
| LangLexer.Term | lang/lexer.py:105-118 | A failed `_lex_term` rewinds the cursor to its value on entry. A successful one consumes input. |
| LangLexer.Value | lang/lexer.py:84-103 | A failed `_lex_value` leaves the state alone. A successful one consumes input. |
| LangLexer.LexFrom | lang/lexer.py:150-156 | From any lexer state, `None` comes back exactly when the expression does not match. A list comes back exactly when the expression matches and reaches the end of the input; it is the expression's tokens, which keep those already there. Every other outcome is the raised error. |
| LangLexer.Lex | lang/lexer.py:148-156 | The module-level `lex` is `LexFrom` on a fresh lexer. It has no contract of its own; what it promises is stated by LangInvariant.LexSound, LangProperties.NoneIffNoValue and the lemmas named after inputs. |
| LangLexer.TakeBackup | lang/lexer.py:48-49 | `_backup` records the cursor; the output list it holds is the lexer's own, so only the cursor is kept. |
| LangLexer.Restore | lang/lexer.py:51-53 | `_restore` puts the cursor back and keeps the current output, the very list the backup refers to. |
| LangInvariant.LexSound | lang/lexer.py:148-156 | A list returned by `lex` consists of lexemes at strictly increasing offsets whose texts concatenate to exactly the input. |
| LangInvariant.ExpressionSound | lang/lexer.py:138-146 | A matching `lex_expression` keeps the invariant. |
| LangInvariant.TailSound | lang/lexer.py:142-144 | The infix loop keeps the invariant. |
| LangInvariant.TermSound | lang/lexer.py:105-118 | A matching term keeps the invariant. |
| LangInvariant.ValueSound | lang/lexer.py:84-103 | A matching value keeps the invariant. |
| LangInvariant.PrefixesSound | lang/lexer.py:108-109 | Every prefix token is the longest operator at its offset and keeps the invariant. |
| LangInvariant.PostfixesSound | lang/lexer.py:115-116 | Every postfix token is the operator at its offset and keeps the invariant. |
| LangInvariant.PrefixKeepsValid | lang/lexer.py:120-124 | One `_lex_prefix` keeps the invariant. |
| LangInvariant.PostfixKeepsValid | lang/lexer.py:132-136 | One `_lex_postfix` keeps the invariant. |
| LangInvariant.InfixKeepsValid | lang/lexer.py:126-130 | One `_lex_infix` keeps the invariant. |
| LangInvariant.MatchKeepsValid | lang/lexer.py:55-66 | A `(` or `)` token appended by `_match` keeps the invariant. The operator tokens `_match` appends are covered by PrefixKeepsValid, PostfixKeepsValid and InfixKeepsValid. |
| LangInvariant.RegexKeepsValid | lang/lexer.py:68-80 | A maximal-run token appended by `_regex` keeps the invariant. |
| LangProperties.PrefixesOnly | lang/lexer.py:108-109 | The prefix loop appends only `Prefix` tokens. |
| LangProperties.PostfixesOnly | lang/lexer.py:115-116 | The postfix loop appends only `Postfix` tokens. |
| LangProperties.ValueEmits | lang/lexer.py:84-103 | A matching value appends one `Integer` or `Variable` token, or a group from `Open` to `Close`. |
| LangProperties.TermEmits | lang/lexer.py:105-118 | A matching term appends prefixes, then one value, then postfixes, in that order. |
| LangProperties.TermLeavesPrefixes | lang/lexer.py:48-53 | After a failed term, the cursor is back where it was, but the prefix tokens it matched remain, because the backup shares the output list. |
| LangProperties.RestoreRecovers | lang/lexer.py:48-53 | Restoring a backup gives back the state it was taken in exactly when no token was appended since. |
| LangProperties.ValueFalse | lang/lexer.py:84-103 | `_lex_value` returns `False` exactly when no `(` or identifier character is at the cursor. |
| LangProperties.TermFalse | lang/lexer.py:105-113 | `_lex_term` returns `False` exactly when no value starts after the prefixes. |
| LangProperties.NoneIffNoValue | lang/lexer.py:148-151 | `lex` returns `None` exactly when no value starts after the leading prefix operators. |
| LangProperties.NothingToLex | lang/lexer.py:148-151 | Empty input, or input starting with a blank or another non-starter, gives `None`. |
| LangProperties.LexEmpty | lang/lexer.py:148-151 | `lex("")` is `None`. |
| LangProperties.LexLeadingBlank | lang/lexer.py:148-151 | `lex(" 1")` is `None`. |
| LangProperties.NoPrefixAt | lang/lexer.py:108-109 | Without `+` or `-` at the cursor, the prefix loop does nothing. |
| LangProperties.NoPostfixAt | lang/lexer.py:115-116 | Without `+` or `-` at the cursor, the postfix loop does nothing. |
| LangProperties.NoInfixAt | lang/lexer.py:142 | Without an operator at the cursor, the infix loop stops at once. |
| LangProperties.IntegerValue | lang/lexer.py:95-97 | A run of digits is one `Integer` token. |
| LangProperties.NameValue | lang/lexer.py:99-101 | A run of identifier characters not starting with a digit is one `Variable` token. |
| LangProperties.LoneMinus | lang/lexer.py:105-113 | A final lone `-` fails the term. The cursor is rewound, but its `Prefix` token stays in the output. |
| LangProperties.LeftoverPrefix | lang/lexer.py:105-113 | On `"-"` the failed term leaves the output `[Prefix "-"]` with the cursor at 0. |
| LangProperties.DoubleMinusName | lang/lexer.py:120-124 | `--` before a name is one `Prefix` token `--`, not two `-` tokens. |
| LangProperties.DoubleMinus | lang/lexer.py:120-124 | `--` followed by no sign gives exactly one `Prefix` token `--`. |
| LangProperties.LexDoubleMinus | lang/lexer.py:120-124 | `lex("--x")` is `[Prefix "--", Variable "x"]`. |
| LangProperties.LeadingInteger | lang/lexer.py:105-118 | Digits at the start, with no sign after them, form the first term. |
| LangProperties.IntegerThenOther | lang/lexer.py:153-154 | An integer followed by anything but an operator leaves input over, which raises. |
| LangProperties.LexSpacedSum | lang/lexer.py:153-154 | `lex("1 + 2")` raises, because this lexer does not skip blanks. |
| LangProperties.OpenWithoutExpression | lang/lexer.py:86-88 | A `(` with no value past the prefix operators after it raises, whatever those prefixes are. |
| LangProperties.LexEmptyGroup | lang/lexer.py:86-88 | `lex("()")` raises. |
| LangProperties.EmptyParens | lang/lexer.py:86-88 | `()` at the cursor raises. |
| LangProperties.GroupRaises | lang/lexer.py:84-93 | A group raises exactly when its inner expression raises, when no value starts after the prefix operators inside it, or when no `)` follows the inner expression. |
| LangProperties.LeadingGroupRaises | lang/lexer.py:148-150 | A group at the start of the input that raises makes `lex` raise. |
| LangProperties.MinusThenClose | lang/lexer.py:108-109 | On `-)` the prefix loop takes one `-` and stops at the `)`. |
| LangProperties.MinusGroup | lang/lexer.py:86-88 | `(-)` at the cursor raises: the prefix is matched but no value follows. |
| LangProperties.LexMinusGroup | lang/lexer.py:86-88 | `lex("(-)")` raises. |
| LangProperties.MissingTerm | lang/lexer.py:142-144 | An infix operator with no value past the prefix operators after it raises, whatever those prefixes are. |
| LangProperties.DanglingOperator | lang/lexer.py:142-144 | An integer followed by a final operator raises. A lone `+` or `-` there is no postfix operator, so the infix loop demands a term. |
| LangProperties.LeadingValue | lang/lexer.py:95-97 | Digits at the start of the input are the first value, with no prefix before them. |
| LangProperties.LexDanglingOperator | lang/lexer.py:142-144 | `lex("1*")` raises. |
| LangProperties.UnclosedGroup | lang/lexer.py:90-93 | `(` and an integer with no `)` raises. |
| LangProperties.LexUnclosedGroup | lang/lexer.py:90-93 | `lex("(1")` raises. |

In calc/lexer.py:91-93 a comma with no expression after it is reported at the
offset of the last token, which is that comma. It is not reported at the
position after the comma.

## Left out

- CalcLexer.Lex and LangLexer.Lex carry no `ensures` of their own. What
  `lex` promises is stated about them by CalcInvariant.LexSound,
  LangInvariant.LexSound, LangProperties.NoneIffNoValue and the lemmas named
  after inputs.
- CalcInvariant.LexSound states that a failing `lex` reports a `Located`
  error, not which `(`, `,` or operator it concerns. The exact offsets are
  stated by CalcProperties.LexTrails, CalcProperties.EmptyGroup,
  CalcProperties.GroupUnclosed, CalcProperties.TrailingComma and
  CalcProperties.MissingOperand.
- CalcInvariant.TailSound states that the infix loop's errors are `Located`,
  not that its own error is just past its own operator. A term's nested error
  passes through unchanged. The exact offset of the loop's own error is stated
  by CalcProperties.MissingOperand.
- CalcInvariant.GroupSound states that a group's errors are `Located`, not
  that its own errors point at its own `(`. The inner expression's errors pass
  through unchanged. The exact offsets of the group's own errors are stated by
  CalcProperties.EmptyGroup and CalcProperties.GroupUnclosed.
- CalcInvariant.ArgumentsTailSound states that the comma loop's errors are
  `Located`, not that its own error points at its own comma. The exact offset
  of that error is stated by CalcProperties.TrailingComma.
- CalcProperties.IntegerExpression states only that the expression matches and
  consumes the whole input, not which tokens it emits. It serves as a step
  towards UnclosedGroup.
- Recursion depth is unbounded in the model. Each level of `(` nesting costs
  the program about three Python frames (`_lex_value`, `_lex_expression`,
  `_lex_term`), so input nested a few hundred levels deep raises
  `RecursionError` there, which is not a lexer error. For that input the
  model's `Expression` and `Value` still return tokens or a lexer error.
- The interactive loop in main.py is left out. It is input/output plumbing:
  `input()`, `print`, and the handling of interrupts and end of file.
- The parser, the evaluator and the `Error` base class are not part of this
  model. The lexers use none of their behaviour.
- Python's `re` engine is not modelled. The three patterns `^[0-9]+`,
  `^[_a-z0-9]+` and `^[ \t]+` are modelled directly as the longest non-empty
  run of a character class.
- Exceptions are modelled as the `Err` case of `Result`. The calc error carries
  an offset and a message; the lang error carries nothing, as the bare `raise
  LexerError` does.
- `_lex_whitespace` appends a token of category `None` and pops it at once. It
  is modelled as a plain cursor skip, because that token never survives.
- The `has_more` property and the `Lexer` object's mutation are folded into
  the immutable state and `Finalize`.
