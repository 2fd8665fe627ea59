/** The error paths of `CalcParser` on concrete inputs: which message the
    constructor leaves in place of the `println` of CalcParser.java:33, and
    whether the tree survives. Each lemma names its input through a
    parameter equal to the literal. */
module ErrorVectors {
  import opened Wrappers
  import opened Trees
  import opened Lexer
  import opened Parser
  import opened TestVectors

  /** The empty input has no operand (CalcParser.java:168). */
  lemma EmptyInput(d: Doubles, input: string)
    requires input == ""
    ensures Parse(input, d) == ParseReport(None, Some(ExpectedOperand))
  {
    var s0 := Initial([]);
    assert Split(input) == [];
    StepCases(s0, d);
    assert Step(s0, d) == Success(s0.(tok := EolnToken));
  }

  /** `2+` ends where the right operand of `+` should start. */
  lemma DanglingOperator(d: Doubles, input: string)
    requires input == "2+"
    requires d.valueOf("2") == Some(2.0)
    ensures Parse(input, d) == ParseReport(None, Some(ExpectedOperand))
  {
    SplitSingle(input, 1);
    SplitSingle(input, 0);
    var raw := ["2", "+"];
    assert Split(input) == raw;
    var s0 := Initial(raw);
    var s1 := LexState(raw, 1, NumberToken, 2.0, false, false);
    var s2 := LexState(raw, 2, '+' as int, 2.0, false, false);
    var s3 := s2.(tok := EolnToken);
    StepNumber(s0, d, 2.0, s1);
    StepSymbol(s1, d, s2);
    StepCases(s2, d);
    MulexpOfNumber(s1, d);
    assert Mulexp(s3, d) == Failure(ExpectedOperand);
    assert AddExpLoop(Leaf(d.toString(2.0)), s2, d) == Failure(ExpectedOperand);
    assert AddExp(s1, d) == Failure(ExpectedOperand);
  }

  /** `(2` lacks its closing parenthesis (CalcParser.java:61-63). */
  lemma UnclosedParenthesis(d: Doubles, input: string)
    requires input == "(2"
    requires d.valueOf("2") == Some(2.0)
    ensures Parse(input, d) == ParseReport(None, Some("Parse error: Expected a )."))
  {
    SplitSingle(input, 1);
    SplitSingle(input, 0);
    var raw := ["(", "2"];
    assert Split(input) == raw;
    var s0 := Initial(raw);
    var s1 := LexState(raw, 1, '(' as int, 0.0, false, false);
    var s2 := LexState(raw, 2, NumberToken, 2.0, false, false);
    var s3 := s2.(tok := EolnToken);
    StepSymbol(s0, d, s1);
    StepNumber(s1, d, 2.0, s2);
    StepCases(s2, d);
    ExponentexpOfNumber(s2, d);
    ExpressionIsExponentexp(s2, d);
    assert Matched(s3, ')' as int, d) == Failure(MatchError(')' as int));
    assert Rootexp(s1, d) == Failure(MatchError(')' as int));
    assert Exponentexp(s1, d) == Failure(MatchError(')' as int));
    assert Mulexp(s1, d) == Failure(MatchError(')' as int));
    assert AddExp(s1, d) == Failure(MatchError(')' as int));
    assert Expression(s1, d) == Failure(MatchError(')' as int));
    assert MatchError(')' as int) == "Parse error: Expected a ).";
  }

  /** `2)` is a complete expression followed by more text: the tree is
      kept and the message is the trailing-text one (CalcParser.java:29-31). */
  lemma TrailingText(d: Doubles, input: string)
    requires input == "2)"
    requires d.valueOf("2") == Some(2.0)
    ensures Parse(input, d) == ParseReport(Some(Leaf(d.toString(2.0))), Some(UnexpectedText))
  {
    SplitSingle(input, 1);
    SplitSingle(input, 0);
    var raw := ["2", ")"];
    assert Split(input) == raw;
    var s0 := Initial(raw);
    var s1 := LexState(raw, 1, NumberToken, 2.0, false, false);
    var s2 := LexState(raw, 2, ')' as int, 2.0, false, false);
    StepNumber(s0, d, 2.0, s1);
    StepSymbol(s1, d, s2);
    ExponentexpOfNumber(s1, d);
    ExpressionIsExponentexp(s1, d);
  }

  /** A run that `Double.valueOf` rejects stops the lexer in its first
      `advance()` (CalcLexer.java:84-88). */
  lemma MalformedNumber(d: Doubles, input: string)
    requires input == "2.3.4"
    requires d.valueOf("2.3.4") == None
    ensures Parse(input, d) == ParseReport(None, Some(IllegalNumber))
  {
    assert RunEnd(input, 0) == 5;
    assert input[0..5] == input;
    assert Split(input) == [input];
    StepCases(Initial([input]), d);
  }

  /** The space is not among the tokenizer's delimiters (CalcLexer.java:48),
      so that a space glues its neighbours into one raw token: `2 3` is one
      run, which `Double.valueOf` rejects, rather than two numbers. */
  lemma SpaceJoinsRuns(d: Doubles, input: string)
    requires input == "2 3"
    requires d.valueOf("2 3") == None
    ensures Parse(input, d) == ParseReport(None, Some(IllegalNumber))
  {
    assert RunEnd(input, 0) == 3;
    assert input[0..3] == input;
    assert Split(input) == [input];
    StepCases(Initial([input]), d);
  }

  /** A raw token that begins with whitespace is skipped whole
      (CalcLexer.java:78-81), so that ` 2` holds no operand at all. */
  lemma LeadingSpaceHidesNumber(d: Doubles, input: string)
    requires input == " 2"
    ensures Parse(input, d) == ParseReport(None, Some(ExpectedOperand))
  {
    assert RunEnd(input, 0) == 2;
    assert input[0..2] == input;
    assert !IsDelimiter(input[0]);
    assert SplitFrom(input, 0) == [input] + SplitFrom(input, 2);
    assert Split(input) == [input];
    var s0 := Initial([input]);
    assert IsWhitespace(input[0]);
    assert NextSignificant([input], 0) == 1;
    StepCases(s0, d);
    var s1 := s0.(cursor := 1, tok := EolnToken);
    assert Step(s0, d) == Success(s1);
    assert Exponentexp(s1, d) == Failure(ExpectedOperand);
    assert Mulexp(s1, d) == Failure(ExpectedOperand);
    assert AddExp(s1, d) == Failure(ExpectedOperand);
    assert Expression(s1, d) == Failure(ExpectedOperand);
  }
}
