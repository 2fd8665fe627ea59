/** CalcLexer.java: the scanner of the calculator.

    The Java class wraps a `java.util.StringTokenizer` over the input with the
    delimiters tab, newline, carriage return, `#`, `+`, `-`, `*`, `/`, `^`,
    `(` and `)`, and asks it to return the delimiters as tokens. Here that split is the function `Split`, and the tokenizer's
    position is a cursor into its result. One call of `advance()` is the
    function `Step` on a `LexState`; the class `CalcLexer` holds the same
    fields as the Java class and its `Advance` method is proved to do what
    `Step` says. */
module Lexer {
  import opened Wrappers

  /** `Double.valueOf` and `Double.toString`, which this model does not
      define: every operation that needs one of them takes it as a parameter.
      `valueOf(s) == None` stands for a `NumberFormatException`. */
  datatype Doubles = Doubles(valueOf: string -> Option<real>, toString: real -> string)

  // ---------------------------------------------------------------------------
  // Characters

  /** Java's `Character.isWhitespace` on one UTF-16 unit: the space, line and
      paragraph separators other than the no-break spaces, and the control
      characters U+0009 to U+000D and U+001C to U+001F. */
  predicate IsWhitespace(c: char)
  {
    ('\t' <= c <= '\r') || ('\U{1C}' <= c <= ' ')
    || c == '\U{1680}' || ('\U{2000}' <= c <= '\U{2006}') || ('\U{2008}' <= c <= '\U{200A}')
    || c == '\U{2028}' || c == '\U{2029}' || c == '\U{205F}' || c == '\U{3000}'
  }

  /** `Character.isDigit`, restricted to the ASCII digits. */
  predicate IsDigit(c: char)
  {
    '0' <= c <= '9'
  }

  /** The delimiter set handed to the `StringTokenizer` (CalcLexer.java:48).
      The space is not in it. */
  predicate IsDelimiter(c: char)
  {
    c == '\t' || c == '\n' || c == '\r' || c == '#' || c == '+' || c == '-'
    || c == '*' || c == '/' || c == '^' || c == '(' || c == ')'
  }

  // ---------------------------------------------------------------------------
  // The StringTokenizer split

  /** The end of the run of non-delimiters that starts at `i`. */
  function RunEnd(s: string, i: nat): (j: nat)
    requires i <= |s|
    ensures i <= j <= |s|
    decreases |s| - i
  {
    if i == |s| || IsDelimiter(s[i]) then i else RunEnd(s, i + 1)
  }

  /** A raw token as the tokenizer returns it: one delimiter on its own, or a
      non-empty run of non-delimiters. */
  predicate IsRawToken(t: string)
  {
    (|t| == 1 && IsDelimiter(t[0]))
    || (|t| > 0 && forall i :: 0 <= i < |t| ==> !IsDelimiter(t[i]))
  }

  predicate NonEmpty(raw: seq<string>)
  {
    forall i :: 0 <= i < |raw| ==> |raw[i]| > 0
  }

  /** The tokens the `StringTokenizer` of CalcLexer.java:48 returns for `s`,
      in order. */
  function Split(s: string): (ts: seq<string>)
    ensures forall k :: 0 <= k < |ts| ==> IsRawToken(ts[k])
    ensures Concat(ts) == s
    ensures NoAdjacentRuns(ts)
  {
    SplitTokens(s, 0);
    SplitConcat(s, 0);
    SplitMaximal(s, 0);
    SplitFrom(s, 0)
  }

  /** The tokens of `s` from position `i` on. */
  function SplitFrom(s: string, i: nat): (ts: seq<string>)
    requires i <= |s|
    decreases |s| - i
  {
    if i == |s| then []
    else if IsDelimiter(s[i]) then [[s[i]]] + SplitFrom(s, i + 1)
    else
      var j := RunEnd(s, i);
      [s[i..j]] + SplitFrom(s, j)
  }

  function Concat(ts: seq<string>): string
  {
    if ts == [] then [] else ts[0] + Concat(ts[1..])
  }

  /** A raw token made of non-delimiters. */
  predicate IsRun(t: string)
  {
    |t| > 0 && !IsDelimiter(t[0])
  }

  /** What `RunEnd` finds: a run of non-delimiters, then a delimiter or the end. */
  lemma {:induction false} RunEndBounds(s: string, i: nat)
    requires i <= |s|
    ensures forall k :: i <= k < RunEnd(s, i) ==> !IsDelimiter(s[k])
    ensures RunEnd(s, i) < |s| ==> IsDelimiter(s[RunEnd(s, i)])
    decreases |s| - i
  {
    if i < |s| && !IsDelimiter(s[i]) {
      RunEndBounds(s, i + 1);
    }
  }

  /** The split yields raw tokens only. */
  lemma {:induction false} SplitTokens(s: string, i: nat)
    requires i <= |s|
    ensures forall k :: 0 <= k < |SplitFrom(s, i)| ==> IsRawToken(SplitFrom(s, i)[k])
    ensures NonEmpty(SplitFrom(s, i))
    decreases |s| - i
  {
    if i < |s| {
      if IsDelimiter(s[i]) {
        SplitTokens(s, i + 1);
      } else {
        var j := RunEnd(s, i);
        RunEndBounds(s, i);
        SplitTokens(s, j);
        var t := s[i..j];
        assert forall k :: 0 <= k < |t| ==> !IsDelimiter(t[k]) by {
          forall k | 0 <= k < |t| ensures !IsDelimiter(t[k]) {
            assert t[k] == s[i + k];
          }
        }
      }
    }
  }

  /** Nothing of the input is lost or reordered by the split. */
  lemma {:induction false} SplitConcat(s: string, i: nat)
    requires i <= |s|
    ensures Concat(SplitFrom(s, i)) == s[i..]
    decreases |s| - i
  {
    if i < |s| {
      var ts := SplitFrom(s, i);
      var j := if IsDelimiter(s[i]) then i + 1 else RunEnd(s, i);
      SplitConcat(s, j);
      if IsDelimiter(s[i]) {
        assert s[i..j] == [s[i]];
      }
      assert ts == [s[i..j]] + SplitFrom(s, j);
      assert ts[1..] == SplitFrom(s, j);
      assert s[i..j] + s[j..] == s[i..];
    }
  }

  /** No two runs of non-delimiters next to each other. */
  predicate NoAdjacentRuns(ts: seq<string>)
  {
    forall k :: 0 <= k < |ts| - 1 ==> !(IsRun(ts[k]) && IsRun(ts[k + 1]))
  }

  /** Runs of non-delimiters are maximal: two of them never follow each other. */
  lemma {:induction false} SplitMaximal(s: string, i: nat)
    requires i <= |s|
    ensures NoAdjacentRuns(SplitFrom(s, i))
    decreases |s| - i
  {
    if i < |s| {
      var j := if IsDelimiter(s[i]) then i + 1 else RunEnd(s, i);
      var rest := SplitFrom(s, j);
      SplitMaximal(s, j);
      RunEndBounds(s, i);
      if IsDelimiter(s[i]) {
        assert s[i..j] == [s[i]];
      }
      var ts := SplitFrom(s, i);
      assert ts == [s[i..j]] + rest;
      if !IsDelimiter(s[i]) && rest != [] {
        assert IsDelimiter(s[j]);
        assert rest[0] == [s[j]];
      }
      forall k | 0 <= k < |ts| - 1
        ensures !(IsRun(ts[k]) && IsRun(ts[k + 1]))
      {
        assert ts[k + 1] == rest[k];
        if k > 0 {
          assert ts[k] == rest[k - 1];
          assert !(IsRun(rest[k - 1]) && IsRun(rest[k]));
        } else if !IsDelimiter(s[i]) {
          assert !IsRun(rest[0]);
        } else {
          assert !IsRun(ts[0]);
        }
      }
    }
  }

  // ---------------------------------------------------------------------------
  // Tokens

  /** `tokenChar` values that are not characters (CalcLexer.java:34). */
  const NumberToken: int := -1
  const EolnToken: int := -2

  /** The ints that are the code of a Unicode scalar value. */
  predicate IsCharCode(n: int)
  {
    0 <= n < 0xD800 || 0xE000 <= n < 0x11_0000
  }

  /** A value `tokenChar` can hold: one of the two markers or the code of a
      character that is not whitespace. The markers are negative, so they never
      collide with a character. */
  predicate IsTokenCode(n: int)
  {
    n == NumberToken || n == EolnToken || (IsCharCode(n) && !IsWhitespace(n as char))
  }

  /** A raw token that `advance()` turns into a `NUMBER_TOKEN` (CalcLexer.java:82). */
  predicate IsNumberLike(t: string)
    requires |t| > 0
  {
    |t| > 1 || IsDigit(t[0])
  }

  /** A raw token that `advance()` turns into a symbol token (CalcLexer.java:90-92). */
  predicate IsSymbolToken(t: string)
  {
    |t| == 1 && !IsWhitespace(t[0]) && !IsDigit(t[0])
  }

  /** The characters of the symbol tokens among the first `n` raw tokens, in order. */
  function SymbolsBefore(raw: seq<string>, n: nat): (h: seq<char>)
    requires n <= |raw|
    ensures |h| <= n
  {
    if n == 0 then []
    else SymbolsBefore(raw, n - 1) + (if IsSymbolToken(raw[n - 1]) then [raw[n - 1][0]] else [])
  }

  const IllegalNumber: string := "Lexer error: Illegal format for a number"

  // ---------------------------------------------------------------------------
  // The exponent-pairing flags

  /** What a symbol token `c` does to (`startCheckExponent`, `endCheckExponent`)
      (CalcLexer.java:93-103). */
  function FlagStep(start: bool, end: bool, c: char): (r: (bool, bool))
    ensures !(r.0 && r.1)
    ensures r.0 <==> c == '^' && !start
    ensures r.1 && !end ==> c == '^' && start
    ensures c == '^' && start ==> r.1
    ensures c != '^' ==> (r.1 <==> end && !start)
  {
    if c == '^' then
      if start then (false, true) else (true, false)
    else if start then (false, false)
    else (start, end)
  }

  /** The flags after the symbol tokens `h`, starting from both false. */
  function FlagsAfter(h: seq<char>): (bool, bool)
  {
    if h == [] then (false, false)
    else
      var prev := FlagsAfter(h[..|h| - 1]);
      FlagStep(prev.0, prev.1, h[|h| - 1])
  }

  /** The number of `^` at the end of `h`. */
  function CaretRun(h: seq<char>): (n: nat)
    ensures n <= |h|
  {
    if h == [] || h[|h| - 1] != '^' then 0 else 1 + CaretRun(h[..|h| - 1])
  }

  /** `h` with the symbols after its last `^` removed. */
  function UpToLastCaret(h: seq<char>): (p: seq<char>)
    ensures |p| <= |h| && p == h[..|p|]
    ensures p == [] || p[|p| - 1] == '^'
  {
    if h == [] || h[|h| - 1] == '^' then h else UpToLastCaret(h[..|h| - 1])
  }

  /** The meaning of the flags: `startCheckExponent` holds when the symbols so
      far end in an odd number of `^`, and `endCheckExponent` holds when the
      last run of `^`, ignoring the symbols after it, is of even length. */
  lemma {:induction false} FlagsCharacterised(h: seq<char>)
    ensures FlagsAfter(h).0 == (CaretRun(h) % 2 == 1)
    ensures FlagsAfter(h).1 == (CaretRun(UpToLastCaret(h)) > 0 && CaretRun(UpToLastCaret(h)) % 2 == 0)
    decreases |h|
  {
    if h != [] {
      var init := h[..|h| - 1];
      FlagsCharacterised(init);
      if h[|h| - 1] != '^' {
        assert UpToLastCaret(h) == UpToLastCaret(init);
        if FlagsAfter(init).0 {
          assert CaretRun(init) > 0;
          assert UpToLastCaret(init) == init;
        }
      }
    }
  }

  /** The two flags are never both true. */
  lemma FlagsExclusive(h: seq<char>)
    ensures !(FlagsAfter(h).0 && FlagsAfter(h).1)
  {
    FlagsCharacterised(h);
    if FlagsAfter(h).0 {
      assert CaretRun(h) > 0;
      assert UpToLastCaret(h) == h;
    }
  }

  // ---------------------------------------------------------------------------
  // Lexer states and one advance() step

  /** The fields of a `CalcLexer`: the raw tokens with the tokenizer's
      position, `tokenChar`, `tokenNum` and the two flags. */
  datatype LexState = LexState(raw: seq<string>, cursor: nat, tok: int, num: real, start: bool, end: bool)

  /** A freshly built lexer before its first `advance()`: Java's field defaults. */
  function Initial(raw: seq<string>): (st: LexState)
    ensures st.cursor == 0 && st.raw == raw && !st.start && !st.end
  {
    LexState(raw, 0, 0, 0.0, false, false)
  }

  /** What stays true of a lexer that has not failed: the flags are those of
      the symbol tokens read so far, and the current token is `EOLN_TOKEN` at
      the end, or the classification of the last raw token read. */
  ghost predicate Good(st: LexState, d: Doubles)
  {
    && st.cursor <= |st.raw|
    && NonEmpty(st.raw)
    && IsTokenCode(st.tok)
    && (st.start, st.end) == FlagsAfter(SymbolsBefore(st.raw, st.cursor))
    && (st.tok == EolnToken ==> st.cursor == |st.raw|)
    && (st.tok == NumberToken ==>
          0 < st.cursor && IsNumberLike(st.raw[st.cursor - 1])
          && d.valueOf(st.raw[st.cursor - 1]) == Some(st.num))
    && (st.tok >= 0 && st.cursor > 0 ==>
          IsSymbolToken(st.raw[st.cursor - 1]) && st.raw[st.cursor - 1] == [st.tok as char])
  }

  /** The raw tokens not yet read, plus one for a current token that is not
      `EOLN_TOKEN`: every step from a token other than `EOLN_TOKEN` lowers it. */
  function Measure(st: LexState): nat
    requires st.cursor <= |st.raw|
  {
    |st.raw| - st.cursor + (if st.tok == EolnToken then 0 else 1)
  }

  /** The position of the first raw token at or after `from` that does not
      begin with whitespace, or the end. */
  function NextSignificant(raw: seq<string>, from: nat): (k: nat)
    requires from <= |raw| && NonEmpty(raw)
    ensures from <= k <= |raw|
    ensures forall j :: from <= j < k ==> IsWhitespace(raw[j][0])
    ensures k < |raw| ==> !IsWhitespace(raw[k][0])
    decreases |raw| - from
  {
    if from == |raw| then from
    else if IsWhitespace(raw[from][0]) then NextSignificant(raw, from + 1)
    else from
  }

  /** Skipping raw tokens that begin with whitespace reads no symbol. */
  lemma {:induction false} SymbolsSkip(raw: seq<string>, from: nat, k: nat)
    requires from <= k <= |raw| && NonEmpty(raw)
    requires forall j :: from <= j < k ==> IsWhitespace(raw[j][0])
    ensures SymbolsBefore(raw, k) == SymbolsBefore(raw, from)
    decreases k - from
  {
    if from < k {
      SymbolsSkip(raw, from, k - 1);
    }
  }

  /** The three ways `advance()` can succeed each leave a good state. */
  lemma EndIsGood(st: LexState, d: Doubles)
    requires Good(st, d) && NextSignificant(st.raw, st.cursor) == |st.raw|
    ensures Good(st.(cursor := |st.raw|, tok := EolnToken), d)
  {
    SymbolsSkip(st.raw, st.cursor, |st.raw|);
  }

  lemma NumberIsGood(st: LexState, d: Doubles, k: nat, v: real)
    requires Good(st, d) && k == NextSignificant(st.raw, st.cursor) && k < |st.raw|
    requires IsNumberLike(st.raw[k]) && d.valueOf(st.raw[k]) == Some(v)
    ensures Good(st.(cursor := k + 1, tok := NumberToken, num := v), d)
  {
    SymbolsSkip(st.raw, st.cursor, k);
    assert !IsSymbolToken(st.raw[k]);
    assert SymbolsBefore(st.raw, k + 1) == SymbolsBefore(st.raw, st.cursor);
  }

  lemma SymbolIsGood(st: LexState, d: Doubles, k: nat)
    requires Good(st, d) && k == NextSignificant(st.raw, st.cursor) && k < |st.raw|
    requires !IsNumberLike(st.raw[k])
    ensures var flags := FlagStep(st.start, st.end, st.raw[k][0]);
            Good(st.(cursor := k + 1, tok := st.raw[k][0] as int, start := flags.0, end := flags.1), d)
  {
    var c := st.raw[k][0];
    var flags := FlagStep(st.start, st.end, c);
    var st' := st.(cursor := k + 1, tok := c as int, start := flags.0, end := flags.1);
    assert IsSymbolToken(st.raw[k]) && st.raw[k] == [c];
    SymbolsSkip(st.raw, st.cursor, k);
    FlagsAfterSnoc(SymbolsBefore(st.raw, st.cursor), c);
    assert (st'.start, st'.end) == FlagsAfter(SymbolsBefore(st'.raw, st'.cursor));
  }

  lemma FlagsAfterSnoc(h: seq<char>, c: char)
    ensures FlagsAfter(h + [c]) == FlagStep(FlagsAfter(h).0, FlagsAfter(h).1, c)
  {
    assert (h + [c])[..|h|] == h;
  }

  /** What `advance()` makes of the raw token `s` it has just read, which
      does not begin with whitespace (CalcLexer.java:82-105): a number, a
      failure, or a symbol token that moves the exponent flags. */
  function Classified(st: LexState, s: string, d: Doubles): (r: Result<LexState, string>)
    requires |s| > 0
    ensures r.Success? ==> r.value.raw == st.raw && r.value.cursor == st.cursor
    ensures r.Failure? <==> IsNumberLike(s) && d.valueOf(s).None?
    ensures r.Failure? ==> r.error == IllegalNumber
  {
    if IsNumberLike(s) then
      match d.valueOf(s)
      case Some(v) => Success(st.(tok := NumberToken, num := v))
      case None => Failure(IllegalNumber)
    else
      var flags := FlagStep(st.start, st.end, s[0]);
      Success(st.(tok := s[0] as int, start := flags.0, end := flags.1))
  }

  lemma ClassifiedIsGood(st: LexState, d: Doubles, k: nat)
    requires Good(st, d) && k == NextSignificant(st.raw, st.cursor) && k < |st.raw|
    ensures var r := Classified(st.(cursor := k + 1), st.raw[k], d);
            r.Success? ==> Good(r.value, d)
  {
    var s := st.raw[k];
    if IsNumberLike(s) {
      if d.valueOf(s).Some? {
        NumberIsGood(st, d, k, d.valueOf(s).value);
      }
    } else {
      SymbolIsGood(st, d, k);
    }
  }

  /** One call of `advance()` (CalcLexer.java:63-107): skip the raw tokens
      that begin with whitespace; at the end the token is `EOLN_TOKEN`;
      otherwise the next raw token is classified. */
  function Step(st: LexState, d: Doubles): (r: Result<LexState, string>)
    requires Good(st, d)
    ensures r.Success? ==> Good(r.value, d) && r.value.raw == st.raw && r.value.cursor >= st.cursor
    ensures r.Success? && st.tok != EolnToken ==> Measure(r.value) < Measure(st)
    ensures r.Failure? ==> r.error == IllegalNumber
    ensures st.cursor == |st.raw| ==> r == Success(st.(tok := EolnToken))
    ensures st.tok == EolnToken ==> r == Success(st)
  {
    var k := NextSignificant(st.raw, st.cursor);
    if k == |st.raw| then
      EndIsGood(st, d);
      Success(st.(cursor := k, tok := EolnToken))
    else
      ClassifiedIsGood(st, d, k);
      Classified(st.(cursor := k + 1), st.raw[k], d)
  }

  /** `Step` by cases on the first raw token that does not begin with whitespace. */
  lemma StepCases(st: LexState, d: Doubles)
    requires Good(st, d)
    ensures var k := NextSignificant(st.raw, st.cursor);
            && (k == |st.raw| ==> Step(st, d) == Success(st.(cursor := k, tok := EolnToken)))
            && (k < |st.raw| ==> Step(st, d) == Classified(st.(cursor := k + 1), st.raw[k], d))
  {
  }

  /** The lexer of a tokenized input before its first `advance()`. */
  function Tokenized(s: string): (st: LexState)
    ensures st == Initial(Split(s))
    ensures forall d: Doubles :: Good(st, d)
  {
    SplitTokens(s, 0);
    Initial(Split(s))
  }

  /** After construction the current token comes from the first raw token
      that does not begin with whitespace, and is `EOLN_TOKEN` when there is
      none (CalcLexer.java:55, CalcLexer.java:63-81). */
  lemma FirstTokenClassified(s: string, d: Doubles)
    ensures var raw := Split(s);
            var r := Step(Tokenized(s), d);
            && ((r.Success? && r.value.tok == EolnToken)
                <==> forall i :: 0 <= i < |raw| ==> IsWhitespace(raw[i][0]))
            && (r.Success? && r.value.tok != EolnToken ==>
                 0 < r.value.cursor
                 && (forall j :: 0 <= j < r.value.cursor - 1 ==> IsWhitespace(raw[j][0]))
                 && !IsWhitespace(raw[r.value.cursor - 1][0]))
  {
    var raw := Split(s);
    SplitTokens(s, 0);
    var k := NextSignificant(raw, 0);
    if k < |raw| {
      assert !IsWhitespace(raw[k][0]);
    }
  }

  /** The scanner object. `tokens` and `cursor` stand for the
      `StringTokenizer`; the other fields are those of the Java class. */
  class CalcLexer {
    const tokens: seq<string>
    const doubles: Doubles
    var cursor: nat
    var tokenChar: int
    var tokenNum: real
    var startCheckExponent: bool
    var endCheckExponent: bool

    /** The fields as a `LexState` value. */
    function State(): LexState
      reads this
    {
      LexState(tokens, cursor, tokenChar, tokenNum, startCheckExponent, endCheckExponent)
    }

    ghost predicate Valid()
      reads this
    {
      Good(State(), doubles)
    }

    /** The termination measure of the parser: see `Measure`. */
    function Remaining(): nat
      reads this
      requires cursor <= |tokens|
    {
      Measure(State())
    }

    /** The part of the constructor before its first `advance()`
        (CalcLexer.java:48): the tokenizer over `s`, the fields at Java's
        default values. */
    constructor Tokenize(s: string, doubles: Doubles)
      ensures State() == Tokenized(s) && this.doubles == doubles && Valid()
    {
      tokens := Split(s);
      this.doubles := doubles;
      cursor := 0;
      tokenChar := 0;
      tokenNum := 0.0;
      startCheckExponent := false;
      endCheckExponent := false;
    }

    /** The constructor `CalcLexer(s)` (CalcLexer.java:41-56): tokenize and
        advance to the first token. A failure of that first `advance()` is the
        constructor throwing, so no lexer results. */
    static method Create(s: string, doubles: Doubles) returns (r: Result<CalcLexer, string>)
      ensures r.Success? ==> fresh(r.value) && r.value.Valid() && r.value.doubles == doubles
                             && Step(Tokenized(s), doubles) == Success(r.value.State())
      ensures r.Failure? ==> Step(Tokenized(s), doubles) == Failure(r.error)
    {
      var lexer := new CalcLexer.Tokenize(s, doubles);
      var o := lexer.Advance();
      if o.Fail? {
        return Failure(o.error);
      }
      return Success(lexer);
    }

    /** `advance()` (CalcLexer.java:63-107). On success the new state is the
        one `Step` gives. On failure the offending raw token has been read
        and nothing else has changed. */
    method Advance() returns (r: Outcome<string>)
      requires Valid()
      modifies this
      ensures r.Pass? ==> Step(old(State()), doubles) == Success(State())
      ensures r.Pass? ==> Valid()
      ensures r.Fail? ==> Step(old(State()), doubles) == Failure(r.error)
      ensures r.Fail? ==> State() == old(State()).(cursor := NextSignificant(tokens, old(cursor)) + 1)
    {
      ghost var st0 := State();
      ghost var k := NextSignificant(tokens, cursor);
      // Raw tokens that begin with white space are skipped.
      var i := cursor;
      while i < |tokens| && IsWhitespace(tokens[i][0])
        invariant cursor <= i <= |tokens|
        invariant NextSignificant(tokens, i) == k
      {
        i := i + 1;
      }
      StepCases(st0, doubles);
      if i == |tokens| {
        cursor, tokenChar := i, EolnToken;
        return Pass;
      }
      assert i == k;
      cursor := i + 1;
      assert State() == st0.(cursor := k + 1);
      r := Classify(tokens[i]);
    }

    /** The part of `advance()` after a raw token `s` that does not begin with
        whitespace has been read (CalcLexer.java:82-105). */
    method Classify(s: string) returns (r: Outcome<string>)
      requires |s| > 0
      modifies this
      ensures r.Pass? ==> Classified(old(State()), s, doubles) == Success(State())
      ensures r.Fail? ==> Classified(old(State()), s, doubles) == Failure(r.error)
      ensures r.Fail? ==> State() == old(State())
    {
      var c := s[0];
      if |s| > 1 || IsDigit(c) {
        var parsed := doubles.valueOf(s);
        if parsed.None? {
          return Fail(IllegalNumber);
        }
        tokenNum := parsed.value;
        tokenChar := NumberToken;
        return Pass;
      }
      // Any other single character that is not white space is a token.
      tokenChar := c as int;
      PairExponents(c);
      return Pass;
    }

    /** The exponent-pairing update of `advance()` for a symbol token `c`
        (CalcLexer.java:93-103). */
    method PairExponents(c: char)
      modifies this`startCheckExponent, this`endCheckExponent
      ensures (startCheckExponent, endCheckExponent)
           == FlagStep(old(startCheckExponent), old(endCheckExponent), c)
    {
      if c == '^' {
        if startCheckExponent {
          startCheckExponent, endCheckExponent := false, true;
        } else {
          startCheckExponent, endCheckExponent := true, false;
        }
      } else if startCheckExponent {
        startCheckExponent, endCheckExponent := false, false;
      }
    }

    /** `nextToken()`: the current token, without changing anything. It is
        always one of the two markers or a non-whitespace character. */
    function NextToken(): (t: int)
      reads this
      requires Valid()
      ensures IsTokenCode(t)
      ensures t == EolnToken ==> cursor == |tokens|
      ensures t >= 0 ==> cursor == 0 || tokens[cursor - 1] == [t as char]
    {
      tokenChar
    }

    /** `getNum()`, called when the current token is `NUMBER_TOKEN`: the value
        `Double.valueOf` gave the raw token it was read from. */
    function GetNum(): (n: real)
      reads this
      requires Valid() && tokenChar == NumberToken
      ensures 0 < cursor && doubles.valueOf(tokens[cursor - 1]) == Some(n)
    {
      tokenNum
    }

    /** `isEndCheckExponent()`: whether the last run of `^` among the symbols
        read so far, ignoring the symbols after it, has an even length. When
        it holds, `startCheckExponent` does not. */
    function IsEndCheckExponent(): (b: bool)
      reads this
      requires Valid()
      ensures b ==> !startCheckExponent
      ensures var run := CaretRun(UpToLastCaret(SymbolsBefore(tokens, cursor)));
              b == (run > 0 && run % 2 == 0)
    {
      FlagsCharacterised(SymbolsBefore(tokens, cursor));
      FlagsExclusive(SymbolsBefore(tokens, cursor));
      endCheckExponent
    }
  }
}
