/** The machinery both lexers share: the token record, the lexer state
    (cursor and output), and the two primitive moves `_match` (a literal at
    the cursor) and `_regex` (the longest run of a character class at the
    cursor). calc/lexer.py and lang/lexer.py define these identically. */
module Scanner {

  /** The character classes of the lexers' regular expressions:
      `^[0-9]+`, `^[_a-z0-9]+` and `^[ \t]+`. */
  datatype CharClass = Digits | IdentChars | Blanks {
    predicate Has(c: char) {
      match this
      case Digits => '0' <= c <= '9'
      case IdentChars => c == '_' || 'a' <= c <= 'z' || '0' <= c <= '9'
      case Blanks => c == ' ' || c == '\t'
    }
  }

  /** `s[i..j]` is the longest run of characters of class `k` starting at `i`. */
  predicate IsRun(s: string, i: nat, j: nat, k: CharClass) {
    && i <= j <= |s|
    && (forall m :: i <= m < j ==> k.Has(s[m]))
    && (j == |s| || !k.Has(s[j]))
  }

  /** Where a greedy, anchored match of `k`+ starting at `i` stops. */
  function RunEnd(s: string, i: nat, k: CharClass): (j: nat)
    requires i <= |s|
    ensures IsRun(s, i, j, k)
    decreases |s| - i
  {
    if i < |s| && k.Has(s[i]) then RunEnd(s, i + 1, k) else i
  }

  /** The longest run is unique: `RunEnd` is the only end `IsRun` admits. */
  lemma RunEndUnique(s: string, i: nat, j: nat, k: CharClass)
    requires IsRun(s, i, j, k)
    ensures RunEnd(s, i, k) == j
  {
  }

  /** Python's `s[i:].startswith(lit)`. */
  predicate StartsAt(s: string, i: nat, lit: string) {
    i <= |s| && lit <= s[i..]
  }

  lemma StartsAtChar(s: string, i: nat, c: char)
    requires i <= |s|
    ensures StartsAt(s, i, [c]) <==> i < |s| && s[i] == c
  {
    if i < |s| {
      assert s[i..][..1] == [s[i]];
    }
  }

  lemma StartsAtPair(s: string, i: nat, a: char, b: char)
    requires i <= |s|
    ensures StartsAt(s, i, [a, b]) <==> i + 1 < |s| && s[i] == a && s[i + 1] == b
  {
    if i + 1 < |s| {
      assert s[i..][..2] == [s[i], s[i + 1]];
    }
  }

  lemma PrefixSplit(s: string, i: nat, j: nat)
    requires i <= j <= |s|
    ensures s[..j] == s[..i] + s[i..j]
  {
  }

  datatype Token<C> = Token(offset: nat, category: C, value: string) {
    /** The offset just past the token's text. */
    function End(): nat {
      offset + |value|
    }
  }

  /** The mutable part of a `Lexer`: `_cursor` and `_output`. */
  datatype State<C> = State(cursor: nat, output: seq<Token<C>>)

  /** What a rule returns (`True`/`False`) together with the state it leaves. */
  datatype Step<C> = Step(matched: bool, state: State<C>)

  function Last<T>(s: seq<T>): T
    requires |s| > 0
  {
    s[|s| - 1]
  }

  /** The token's text is non-empty and is exactly what the input holds at
      its offset. */
  predicate Spans<C>(input: string, t: Token<C>) {
    && 0 < |t.value|
    && t.End() <= |input|
    && input[t.offset..t.End()] == t.value
  }

  /** Tokens appear left to right and do not overlap. */
  predicate Ordered<C>(ts: seq<Token<C>>) {
    forall i, j :: 0 <= i < j < |ts| ==> ts[i].End() <= ts[j].offset
  }

  /** The texts of the tokens, concatenated. */
  function Texts<C>(ts: seq<Token<C>>): string {
    if |ts| == 0 then [] else Texts(ts[..|ts| - 1]) + Last(ts).value
  }

  /** `s` with every space and tab removed. */
  function Strip(s: string): (r: string)
    ensures |r| <= |s|
    ensures forall i :: 0 <= i < |r| ==> !Blanks.Has(r[i])
  {
    if |s| == 0 then []
    else Strip(s[..|s| - 1]) + (if Blanks.Has(Last(s)) then [] else [Last(s)])
  }

  lemma {:induction false} StripAppend(a: string, b: string)
    ensures Strip(a + b) == Strip(a) + Strip(b)
    decreases |b|
  {
    if |b| == 0 {
      assert a + b == a;
    } else {
      var b' := b[..|b| - 1];
      assert (a + b)[..|a + b| - 1] == a + b';
      StripAppend(a, b');
    }
  }

  lemma {:induction false} StripBlanks(s: string)
    requires forall i :: 0 <= i < |s| ==> Blanks.Has(s[i])
    ensures Strip(s) == []
    decreases |s|
  {
    if |s| > 0 {
      StripBlanks(s[..|s| - 1]);
    }
  }

  lemma {:induction false} StripNoBlanks(s: string)
    requires forall i :: 0 <= i < |s| ==> !Blanks.Has(s[i])
    ensures Strip(s) == s
    decreases |s|
  {
    if |s| > 0 {
      StripNoBlanks(s[..|s| - 1]);
    }
  }

  lemma TextsPush<C>(ts: seq<Token<C>>, t: Token<C>)
    ensures Texts(ts + [t]) == Texts(ts) + t.value
  {
    assert (ts + [t])[..|ts|] == ts;
  }

  /** `_match`: if the input at the cursor starts with `lit`, consume it and
      append one token for it; otherwise leave the state alone. */
  function Match<C>(input: string, st: State<C>, lit: string, category: C): (r: Step<C>)
    requires st.cursor <= |input|
    ensures r.matched <==> StartsAt(input, st.cursor, lit)
    ensures r.matched ==>
      && r.state.cursor == st.cursor + |lit|
      && r.state.output == st.output + [Token(st.cursor, category, input[st.cursor..r.state.cursor])]
    ensures !r.matched ==> r.state == st
  {
    var token := Token(st.cursor, category, lit);
    if lit <= input[st.cursor..] then
      assert input[st.cursor..st.cursor + |lit|] == input[st.cursor..][..|lit|] == lit;
      Step(true, State(st.cursor + |lit|, st.output + [token]))
    else
      Step(false, st)
  }

  /** `_regex`: the anchored, greedy match of `k`+ at the cursor, appended as
      one token when it is non-empty. */
  function Regex<C>(input: string, st: State<C>, k: CharClass, category: C): (r: Step<C>)
    requires st.cursor <= |input|
    ensures r.matched <==> st.cursor < |input| && k.Has(input[st.cursor])
    ensures r.matched ==>
      && IsRun(input, st.cursor, r.state.cursor, k)
      && r.state.output == st.output + [Token(st.cursor, category, input[st.cursor..r.state.cursor])]
    ensures !r.matched ==> r.state == st
  {
    var end := RunEnd(input, st.cursor, k);
    if end > st.cursor then
      Step(true, State(end, st.output + [Token(st.cursor, category, input[st.cursor..end])]))
    else
      Step(false, st)
  }

  /** `for op in ops: if self._match(op, category): return True`: the first
      operator of `ops`, in order, that the input starts with. */
  function MatchAny<C>(input: string, st: State<C>, ops: seq<string>, category: C): (r: Step<C>)
    requires st.cursor <= |input|
    ensures r.matched <==> exists i :: 0 <= i < |ops| && StartsAt(input, st.cursor, ops[i])
    ensures r.matched ==> exists i ::
      && FirstMatch(input, st.cursor, ops, i)
      && r.state.cursor == st.cursor + |ops[i]|
      && r.state.output == st.output + [Token(st.cursor, category, ops[i])]
    ensures !r.matched ==> r.state == st
    decreases |ops|
  {
    if |ops| == 0 then Step(false, st)
    else
      var m := Match(input, st, ops[0], category);
      if m.matched then
        assert FirstMatch(input, st.cursor, ops, 0);
        m
      else
        var r := MatchAny(input, st, ops[1..], category);
        assert forall i :: 0 <= i < |ops| - 1 ==> ops[1..][i] == ops[i + 1];
        assert forall i :: FirstMatch(input, st.cursor, ops[1..], i) ==> FirstMatch(input, st.cursor, ops, i + 1);
        r
  }

  /** `ops[i]` is the first operator of `ops` that the input starts with at `c`. */
  predicate FirstMatch(input: string, c: nat, ops: seq<string>, i: int) {
    && 0 <= i < |ops|
    && StartsAt(input, c, ops[i])
    && forall j :: 0 <= j < i ==> !StartsAt(input, c, ops[j])
  }

  /** Operators that are the single characters of `chars`: trying them in
      turn finds one exactly when the character at `c` is among them, and
      then it is that character. */
  lemma CharChoice(input: string, c: nat, ops: seq<string>, chars: string)
    requires c <= |input| && |ops| == |chars|
    requires forall i :: 0 <= i < |ops| ==> ops[i] == [chars[i]]
    ensures (exists i :: 0 <= i < |ops| && StartsAt(input, c, ops[i])) <==> c < |input| && input[c] in chars
    ensures forall i :: 0 <= i < |ops| && StartsAt(input, c, ops[i]) ==> ops[i] == [input[c]]
  {
    forall i | 0 <= i < |ops|
      ensures StartsAt(input, c, ops[i]) <==> c < |input| && input[c] == chars[i]
    {
      if c < |input| {
        assert input[c..][..1] == [input[c]];
      }
    }
    if c < |input| && input[c] in chars {
      var i :| 0 <= i < |chars| && chars[i] == input[c];
      assert StartsAt(input, c, ops[i]);
    }
  }
}
