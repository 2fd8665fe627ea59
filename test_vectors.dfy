/** The parse trees behind the expected results of TestInterpreter.java and
    the error paths of the parser, on concrete inputs. `Double.valueOf` is
    only assumed to read the number literals that occur. */
module TestVectors {
  import opened Wrappers
  import opened Trees
  import opened Lexer
  import opened Parser

  // ---------------------------------------------------------------------------
  // One advance() on a known raw token

  lemma StepNumber(st: LexState, d: Doubles, v: real, next: LexState)
    requires Good(st, d) && st.cursor < |st.raw|
    requires st.raw[st.cursor] != [] && !IsWhitespace(st.raw[st.cursor][0])
    requires IsNumberLike(st.raw[st.cursor]) && d.valueOf(st.raw[st.cursor]) == Some(v)
    requires next == st.(cursor := st.cursor + 1, tok := NumberToken, num := v)
    ensures Step(st, d) == Success(next) && Good(next, d)
  {
    StepCases(st, d);
  }

  lemma StepSymbol(st: LexState, d: Doubles, next: LexState)
    requires Good(st, d) && st.cursor < |st.raw|
    requires IsSymbolToken(st.raw[st.cursor])
    requires var c := st.raw[st.cursor][0];
             var flags := FlagStep(st.start, st.end, c);
             next == st.(cursor := st.cursor + 1, tok := c as int, start := flags.0, end := flags.1)
    ensures Step(st, d) == Success(next) && Good(next, d)
  {
    StepCases(st, d);
  }

  /** A character that is a delimiter, or is followed by one or by the end,
      is a raw token of its own. */
  lemma SplitSingle(s: string, i: nat)
    requires i < |s| && (IsDelimiter(s[i]) || i + 1 == |s| || IsDelimiter(s[i + 1]))
    ensures SplitFrom(s, i) == [[s[i]]] + SplitFrom(s, i + 1)
  {
    if !IsDelimiter(s[i]) {
      assert RunEnd(s, i) == i + 1;
      assert s[i..i + 1] == [s[i]];
    }
  }

  // ---------------------------------------------------------------------------
  // One parsing step on known tokens

  lemma RootNumber(st: LexState, d: Doubles)
    requires Good(st, d) && st.tok == NumberToken && Step(st, d).Success?
    ensures Rootexp(st, d) == Success(Parsed(Leaf(d.toString(st.num)), Step(st, d).value))
  {
  }

  lemma CaretStep(i: nat, acc: TreeNode, st: LexState, d: Doubles, p: Parsed)
    requires Good(st, d) && Full(acc, d.toString) && (i > 0 ==> IsCaretNode(acc))
    requires st.tok == '^' as int && Step(st, d).Success?
    requires Rootexp(Step(st, d).value, d) == Success(p)
    ensures var next := Repair(i, Node("^", acc, p.tree), p.rest.end);
            ExponentexpLoop(i, acc, st, d) == ExponentexpLoop(next.0, next.1, p.rest, d)
  {
  }

  lemma RootParen(st: LexState, d: Doubles, p: Parsed)
    requires Good(st, d) && st.tok == '(' as int && Step(st, d).Success?
    requires Expression(Step(st, d).value, d) == Success(p)
    requires p.rest.tok == ')' as int && Step(p.rest, d).Success?
    ensures Rootexp(st, d) == Success(Parsed(p.tree, Step(p.rest, d).value))
  {
  }

  /** A number followed by something other than `^` is an exponent
      expression, and followed by none of `^`, `*`, `/` a multiplicative one. */
  lemma ExponentexpOfNumber(st: LexState, d: Doubles)
    requires Good(st, d) && st.tok == NumberToken && Step(st, d).Success?
    requires Step(st, d).value.tok != '^' as int
    ensures Exponentexp(st, d) == Success(Parsed(Leaf(d.toString(st.num)), Step(st, d).value))
  {
    RootNumber(st, d);
  }

  lemma MulexpOfNumber(st: LexState, d: Doubles)
    requires Good(st, d) && st.tok == NumberToken && Step(st, d).Success?
    requires var t := Step(st, d).value.tok; t != '^' as int && t != '*' as int && t != '/' as int
    ensures Mulexp(st, d) == Success(Parsed(Leaf(d.toString(st.num)), Step(st, d).value))
  {
    ExponentexpOfNumber(st, d);
  }

  lemma AddStep(acc: TreeNode, st: LexState, d: Doubles, p: Parsed)
    requires Good(st, d) && Full(acc, d.toString)
    requires (st.tok == '+' as int || st.tok == '-' as int) && Step(st, d).Success?
    requires Mulexp(Step(st, d).value, d) == Success(p)
    ensures AddExpLoop(acc, st, d) == AddExpLoop(Node([st.tok as char], acc, p.tree), p.rest, d)
  {
  }

  lemma MulStep(acc: TreeNode, st: LexState, d: Doubles, p: Parsed)
    requires Good(st, d) && Full(acc, d.toString)
    requires (st.tok == '*' as int || st.tok == '/' as int) && Step(st, d).Success?
    requires Exponentexp(Step(st, d).value, d) == Success(p)
    ensures MulexpLoop(acc, st, d) == MulexpLoop(Node([st.tok as char], acc, p.tree), p.rest, d)
  {
  }

  lemma HashStep(acc: TreeNode, st: LexState, d: Doubles, p: Parsed)
    requires Good(st, d) && Full(acc, d.toString)
    requires st.tok == '#' as int && Step(st, d).Success?
    requires AddExp(Step(st, d).value, d) == Success(p)
    ensures ExpressionLoop(acc, st, d) == ExpressionLoop(Node("#", acc, p.tree), p.rest, d)
  {
  }

  /** A level whose first operand is followed by none of its operators is
      that operand. */
  lemma MulexpIsExponentexp(st: LexState, d: Doubles)
    requires Good(st, d) && Exponentexp(st, d).Success?
    requires var t := Exponentexp(st, d).value.rest.tok; t != '*' as int && t != '/' as int
    ensures Mulexp(st, d) == Exponentexp(st, d)
  {
  }

  lemma AddExpIsMulexp(st: LexState, d: Doubles)
    requires Good(st, d) && Mulexp(st, d).Success?
    requires var t := Mulexp(st, d).value.rest.tok; t != '+' as int && t != '-' as int
    ensures AddExp(st, d) == Mulexp(st, d)
  {
  }

  lemma ExpressionIsAddExp(st: LexState, d: Doubles)
    requires Good(st, d) && AddExp(st, d).Success?
    requires AddExp(st, d).value.rest.tok != '#' as int
    ensures Expression(st, d) == AddExp(st, d)
  {
  }

  /** An exponent expression followed by none of `#`, `+`, `-`, `*` and `/`
      is a whole expression. */
  lemma ExpressionIsExponentexp(st: LexState, d: Doubles)
    requires Good(st, d) && Exponentexp(st, d).Success?
    requires var t := Exponentexp(st, d).value.rest.tok;
             t != '#' as int && t != '+' as int && t != '-' as int && t != '*' as int && t != '/' as int
    ensures Expression(st, d) == Exponentexp(st, d)
  {
    MulexpIsExponentexp(st, d);
    AddExpIsMulexp(st, d);
    ExpressionIsAddExp(st, d);
  }

  /** The raw tokens and lexer states of `2^3^2`. */
  function PowerRaw(): seq<string> { ["2", "^", "3", "^", "2"] }

  function PowerStates(raw: seq<string>): seq<LexState>
  {
    [ Initial(raw),
      LexState(raw, 1, NumberToken, 2.0, false, false),
      LexState(raw, 2, '^' as int, 2.0, true, false),
      LexState(raw, 3, NumberToken, 3.0, true, false),
      LexState(raw, 4, '^' as int, 3.0, false, true),
      LexState(raw, 5, NumberToken, 2.0, false, true),
      LexState(raw, 5, EolnToken, 2.0, false, true) ]
  }

  lemma PowerSplit(s: string)
    requires s == "2^3^2"
    ensures SplitFrom(s, 0) == PowerRaw()
  {
    SplitSingle(s, 4);
    SplitSingle(s, 3);
    SplitSingle(s, 2);
    SplitSingle(s, 1);
    SplitSingle(s, 0);
  }

  lemma PowerStep0(d: Doubles, raw: seq<string>, s: seq<LexState>)
    requires raw == PowerRaw() && s == PowerStates(raw)
    requires d.valueOf("2") == Some(2.0)
    requires Good(s[0], d)
    ensures Step(s[0], d) == Success(s[1]) && Good(s[1], d)
  {
    StepNumber(s[0], d, 2.0, s[1]);
  }

  lemma PowerStep1(d: Doubles, raw: seq<string>, s: seq<LexState>)
    requires raw == PowerRaw() && s == PowerStates(raw)
    requires Good(s[1], d)
    ensures Step(s[1], d) == Success(s[2]) && Good(s[2], d)
  {
    StepSymbol(s[1], d, s[2]);
  }

  lemma PowerStep2(d: Doubles, raw: seq<string>, s: seq<LexState>)
    requires raw == PowerRaw() && s == PowerStates(raw)
    requires d.valueOf("3") == Some(3.0)
    requires Good(s[2], d)
    ensures Step(s[2], d) == Success(s[3]) && Good(s[3], d)
  {
    StepNumber(s[2], d, 3.0, s[3]);
  }

  lemma PowerStep3(d: Doubles, raw: seq<string>, s: seq<LexState>)
    requires raw == PowerRaw() && s == PowerStates(raw)
    requires Good(s[3], d)
    ensures Step(s[3], d) == Success(s[4]) && Good(s[4], d)
  {
    StepSymbol(s[3], d, s[4]);
  }

  lemma PowerStep4(d: Doubles, raw: seq<string>, s: seq<LexState>)
    requires raw == PowerRaw() && s == PowerStates(raw)
    requires d.valueOf("2") == Some(2.0)
    requires Good(s[4], d)
    ensures Step(s[4], d) == Success(s[5]) && Good(s[5], d)
  {
    StepNumber(s[4], d, 2.0, s[5]);
  }

  lemma PowerTrace(d: Doubles, raw: seq<string>, s: seq<LexState>)
    requires raw == PowerRaw() && s == PowerStates(raw)
    requires d.valueOf("2") == Some(2.0) && d.valueOf("3") == Some(3.0)
    requires Good(s[0], d)
    ensures Step(s[0], d) == Success(s[1]) && Step(s[1], d) == Success(s[2])
            && Step(s[2], d) == Success(s[3]) && Step(s[3], d) == Success(s[4])
            && Step(s[4], d) == Success(s[5]) && Step(s[5], d) == Success(s[6])
  {
    PowerStep0(d, raw, s);
    PowerStep1(d, raw, s);
    PowerStep2(d, raw, s);
    PowerStep3(d, raw, s);
    PowerStep4(d, raw, s);
  }

  /** The parse of the tokens of `2^3^2` from its first token. */
  lemma PowerChainOfThreeTree(d: Doubles, raw: seq<string>, s: seq<LexState>)
    requires raw == PowerRaw() && s == PowerStates(raw)
    requires d.valueOf("2") == Some(2.0) && d.valueOf("3") == Some(3.0)
    requires Good(s[0], d)
    ensures var two := Leaf(d.toString(2.0));
            var three := Leaf(d.toString(3.0));
            Expression(s[1], d) == Success(Parsed(Node("^", two, Node("^", three, two)), s[6]))
  {
    PowerTrace(d, raw, s);
    var two := Leaf(d.toString(2.0));
    var three := Leaf(d.toString(3.0));
    var t := Node("^", two, Node("^", three, two));
    RootNumber(s[5], d);
    RootNumber(s[3], d);
    RootNumber(s[1], d);
    CaretStep(1, Node("^", three, two), s[4], d, Parsed(two, s[6]));
    CaretStep(0, two, s[2], d, Parsed(three, s[4]));
    assert Exponentexp(s[1], d) == Success(Parsed(t, s[6]));
    ExpressionIsExponentexp(s[1], d);
  }

  /** `2^3^2` is parsed as `2^(3^2)`: the swap at the second `^` followed by
      the rotation at the end of input (TestInterpreter.java:5). */
  lemma PowerChainOfThree(d: Doubles, input: string)
    requires input == "2^3^2"
    requires d.valueOf("2") == Some(2.0) && d.valueOf("3") == Some(3.0)
    ensures var two := Leaf(d.toString(2.0));
            var three := Leaf(d.toString(3.0));
            Parse(input, d) == ParseReport(Some(Node("^", two, Node("^", three, two))), None)
  {
    PowerSplit(input);
    var raw := PowerRaw();
    var s := PowerStates(raw);
    assert Tokenized(input) == s[0];
    PowerTrace(d, raw, s);
    PowerChainOfThreeTree(d, raw, s);
  }

  /** The raw tokens and lexer states of `2^3^2^2`. */
  function LongPowerRaw(): seq<string> { ["2", "^", "3", "^", "2", "^", "2"] }

  function LongPowerStates(raw: seq<string>): seq<LexState>
  {
    [ Initial(raw),
      LexState(raw, 1, NumberToken, 2.0, false, false),
      LexState(raw, 2, '^' as int, 2.0, true, false),
      LexState(raw, 3, NumberToken, 3.0, true, false),
      LexState(raw, 4, '^' as int, 3.0, false, true),
      LexState(raw, 5, NumberToken, 2.0, false, true),
      LexState(raw, 6, '^' as int, 2.0, true, false),
      LexState(raw, 7, NumberToken, 2.0, true, false),
      LexState(raw, 7, EolnToken, 2.0, true, false) ]
  }

  lemma LongPowerSplit(s: string)
    requires s == "2^3^2^2"
    ensures SplitFrom(s, 0) == LongPowerRaw()
  {
    SplitSingle(s, 6);
    SplitSingle(s, 5);
    SplitSingle(s, 4);
    SplitSingle(s, 3);
    SplitSingle(s, 2);
    SplitSingle(s, 1);
    SplitSingle(s, 0);
  }

  lemma LongPowerStep0(d: Doubles, raw: seq<string>, s: seq<LexState>)
    requires raw == LongPowerRaw() && s == LongPowerStates(raw)
    requires d.valueOf("2") == Some(2.0)
    requires Good(s[0], d)
    ensures Step(s[0], d) == Success(s[1]) && Good(s[1], d)
  {
    StepNumber(s[0], d, 2.0, s[1]);
  }

  lemma LongPowerStep1(d: Doubles, raw: seq<string>, s: seq<LexState>)
    requires raw == LongPowerRaw() && s == LongPowerStates(raw)
    requires Good(s[1], d)
    ensures Step(s[1], d) == Success(s[2]) && Good(s[2], d)
  {
    StepSymbol(s[1], d, s[2]);
  }

  lemma LongPowerStep2(d: Doubles, raw: seq<string>, s: seq<LexState>)
    requires raw == LongPowerRaw() && s == LongPowerStates(raw)
    requires d.valueOf("3") == Some(3.0)
    requires Good(s[2], d)
    ensures Step(s[2], d) == Success(s[3]) && Good(s[3], d)
  {
    StepNumber(s[2], d, 3.0, s[3]);
  }

  lemma LongPowerStep3(d: Doubles, raw: seq<string>, s: seq<LexState>)
    requires raw == LongPowerRaw() && s == LongPowerStates(raw)
    requires Good(s[3], d)
    ensures Step(s[3], d) == Success(s[4]) && Good(s[4], d)
  {
    StepSymbol(s[3], d, s[4]);
  }

  lemma LongPowerStep4(d: Doubles, raw: seq<string>, s: seq<LexState>)
    requires raw == LongPowerRaw() && s == LongPowerStates(raw)
    requires d.valueOf("2") == Some(2.0)
    requires Good(s[4], d)
    ensures Step(s[4], d) == Success(s[5]) && Good(s[5], d)
  {
    StepNumber(s[4], d, 2.0, s[5]);
  }

  lemma LongPowerStep5(d: Doubles, raw: seq<string>, s: seq<LexState>)
    requires raw == LongPowerRaw() && s == LongPowerStates(raw)
    requires Good(s[5], d)
    ensures Step(s[5], d) == Success(s[6]) && Good(s[6], d)
  {
    StepSymbol(s[5], d, s[6]);
  }

  lemma LongPowerStep6(d: Doubles, raw: seq<string>, s: seq<LexState>)
    requires raw == LongPowerRaw() && s == LongPowerStates(raw)
    requires d.valueOf("2") == Some(2.0)
    requires Good(s[6], d)
    ensures Step(s[6], d) == Success(s[7]) && Good(s[7], d)
  {
    StepNumber(s[6], d, 2.0, s[7]);
  }

  lemma LongPowerTrace(d: Doubles, raw: seq<string>, s: seq<LexState>)
    requires raw == LongPowerRaw() && s == LongPowerStates(raw)
    requires d.valueOf("2") == Some(2.0) && d.valueOf("3") == Some(3.0)
    requires Good(s[0], d)
    ensures Step(s[0], d) == Success(s[1]) && Step(s[1], d) == Success(s[2])
            && Step(s[2], d) == Success(s[3]) && Step(s[3], d) == Success(s[4])
            && Step(s[4], d) == Success(s[5]) && Step(s[5], d) == Success(s[6])
            && Step(s[6], d) == Success(s[7]) && Step(s[7], d) == Success(s[8])
  {
    LongPowerStep0(d, raw, s);
    LongPowerStep1(d, raw, s);
    LongPowerStep2(d, raw, s);
    LongPowerStep3(d, raw, s);
    LongPowerStep4(d, raw, s);
    LongPowerStep5(d, raw, s);
    LongPowerStep6(d, raw, s);
  }

  /** The parse of the tokens of `2^3^2^2` from its first token. */
  lemma PowerChainOfFourTree(d: Doubles, raw: seq<string>, s: seq<LexState>)
    requires raw == LongPowerRaw() && s == LongPowerStates(raw)
    requires d.valueOf("2") == Some(2.0) && d.valueOf("3") == Some(3.0)
    requires Good(s[0], d)
    ensures var two := Leaf(d.toString(2.0));
            var three := Leaf(d.toString(3.0));
            Expression(s[1], d) == Success(Parsed(Node("^", Node("^", Node("^", three, two), two), two), s[8]))
  {
    LongPowerTrace(d, raw, s);
    var two := Leaf(d.toString(2.0));
    var three := Leaf(d.toString(3.0));
    var t1 := Node("^", three, two);
    var t2 := Node("^", t1, two);
    var t3 := Node("^", t2, two);
    RootNumber(s[7], d);
    RootNumber(s[5], d);
    RootNumber(s[3], d);
    RootNumber(s[1], d);
    CaretStep(1, t2, s[6], d, Parsed(two, s[8]));
    CaretStep(1, t1, s[4], d, Parsed(two, s[6]));
    CaretStep(0, two, s[2], d, Parsed(three, s[4]));
    assert Exponentexp(s[1], d) == Success(Parsed(t3, s[8]));
    ExpressionIsExponentexp(s[1], d);
  }

  /** `2^3^2^2` is parsed as `((3^2)^2)^2`, not as `2^(3^(2^2))`: after the
      first swap the end-of-run flag is off at every later `^`, so that no
      further repair happens and the leading `2` is lost from its place. */
  lemma PowerChainOfFour(d: Doubles, input: string)
    requires input == "2^3^2^2"
    requires d.valueOf("2") == Some(2.0) && d.valueOf("3") == Some(3.0)
    ensures var two := Leaf(d.toString(2.0));
            var three := Leaf(d.toString(3.0));
            Parse(input, d)
              == ParseReport(Some(Node("^", Node("^", Node("^", three, two), two), two)), None)
  {
    LongPowerSplit(input);
    var raw := LongPowerRaw();
    var s := LongPowerStates(raw);
    assert Tokenized(input) == s[0];
    LongPowerTrace(d, raw, s);
    PowerChainOfFourTree(d, raw, s);
  }

  /** The raw tokens and lexer states of `2^(3)^2`. */
  function GroupedPowerRaw(): seq<string> { ["2", "^", "(", "3", ")", "^", "2"] }

  function GroupedPowerStates(raw: seq<string>): seq<LexState>
  {
    [ Initial(raw),
      LexState(raw, 1, NumberToken, 2.0, false, false),
      LexState(raw, 2, '^' as int, 2.0, true, false),
      LexState(raw, 3, '(' as int, 2.0, false, false),
      LexState(raw, 4, NumberToken, 3.0, false, false),
      LexState(raw, 5, ')' as int, 3.0, false, false),
      LexState(raw, 6, '^' as int, 3.0, true, false),
      LexState(raw, 7, NumberToken, 2.0, true, false),
      LexState(raw, 7, EolnToken, 2.0, true, false) ]
  }

  lemma GroupedPowerSplit(s: string)
    requires s == "2^(3)^2"
    ensures SplitFrom(s, 0) == GroupedPowerRaw()
  {
    SplitSingle(s, 6);
    SplitSingle(s, 5);
    SplitSingle(s, 4);
    SplitSingle(s, 3);
    SplitSingle(s, 2);
    SplitSingle(s, 1);
    SplitSingle(s, 0);
  }

  lemma GroupedPowerStep0(d: Doubles, raw: seq<string>, s: seq<LexState>)
    requires raw == GroupedPowerRaw() && s == GroupedPowerStates(raw)
    requires d.valueOf("2") == Some(2.0)
    requires Good(s[0], d)
    ensures Step(s[0], d) == Success(s[1]) && Good(s[1], d)
  {
    StepNumber(s[0], d, 2.0, s[1]);
  }

  lemma GroupedPowerStep1(d: Doubles, raw: seq<string>, s: seq<LexState>)
    requires raw == GroupedPowerRaw() && s == GroupedPowerStates(raw)
    requires Good(s[1], d)
    ensures Step(s[1], d) == Success(s[2]) && Good(s[2], d)
  {
    StepSymbol(s[1], d, s[2]);
  }

  lemma GroupedPowerStep2(d: Doubles, raw: seq<string>, s: seq<LexState>)
    requires raw == GroupedPowerRaw() && s == GroupedPowerStates(raw)
    requires Good(s[2], d)
    ensures Step(s[2], d) == Success(s[3]) && Good(s[3], d)
  {
    StepSymbol(s[2], d, s[3]);
  }

  lemma GroupedPowerStep3(d: Doubles, raw: seq<string>, s: seq<LexState>)
    requires raw == GroupedPowerRaw() && s == GroupedPowerStates(raw)
    requires d.valueOf("3") == Some(3.0)
    requires Good(s[3], d)
    ensures Step(s[3], d) == Success(s[4]) && Good(s[4], d)
  {
    StepNumber(s[3], d, 3.0, s[4]);
  }

  lemma GroupedPowerStep4(d: Doubles, raw: seq<string>, s: seq<LexState>)
    requires raw == GroupedPowerRaw() && s == GroupedPowerStates(raw)
    requires Good(s[4], d)
    ensures Step(s[4], d) == Success(s[5]) && Good(s[5], d)
  {
    StepSymbol(s[4], d, s[5]);
  }

  lemma GroupedPowerStep5(d: Doubles, raw: seq<string>, s: seq<LexState>)
    requires raw == GroupedPowerRaw() && s == GroupedPowerStates(raw)
    requires Good(s[5], d)
    ensures Step(s[5], d) == Success(s[6]) && Good(s[6], d)
  {
    StepSymbol(s[5], d, s[6]);
  }

  lemma GroupedPowerStep6(d: Doubles, raw: seq<string>, s: seq<LexState>)
    requires raw == GroupedPowerRaw() && s == GroupedPowerStates(raw)
    requires d.valueOf("2") == Some(2.0)
    requires Good(s[6], d)
    ensures Step(s[6], d) == Success(s[7]) && Good(s[7], d)
  {
    StepNumber(s[6], d, 2.0, s[7]);
  }

  lemma GroupedPowerTrace(d: Doubles, raw: seq<string>, s: seq<LexState>)
    requires raw == GroupedPowerRaw() && s == GroupedPowerStates(raw)
    requires d.valueOf("2") == Some(2.0) && d.valueOf("3") == Some(3.0)
    requires Good(s[0], d)
    ensures Step(s[0], d) == Success(s[1]) && Step(s[1], d) == Success(s[2])
            && Step(s[2], d) == Success(s[3]) && Step(s[3], d) == Success(s[4])
            && Step(s[4], d) == Success(s[5]) && Step(s[5], d) == Success(s[6])
            && Step(s[6], d) == Success(s[7]) && Step(s[7], d) == Success(s[8])
  {
    GroupedPowerStep0(d, raw, s);
    GroupedPowerStep1(d, raw, s);
    GroupedPowerStep2(d, raw, s);
    GroupedPowerStep3(d, raw, s);
    GroupedPowerStep4(d, raw, s);
    GroupedPowerStep5(d, raw, s);
    GroupedPowerStep6(d, raw, s);
  }

  /** The parse of the tokens of `2^(3)^2` from its first token. */
  lemma GroupedPowerTree(d: Doubles, raw: seq<string>, s: seq<LexState>)
    requires raw == GroupedPowerRaw() && s == GroupedPowerStates(raw)
    requires d.valueOf("2") == Some(2.0) && d.valueOf("3") == Some(3.0)
    requires Good(s[0], d)
    ensures var two := Leaf(d.toString(2.0));
            var three := Leaf(d.toString(3.0));
            Expression(s[1], d) == Success(Parsed(Node("^", Node("^", two, three), two), s[8]))
  {
    GroupedPowerTrace(d, raw, s);
    var two := Leaf(d.toString(2.0));
    var three := Leaf(d.toString(3.0));
    var t1 := Node("^", two, three);
    var t2 := Node("^", t1, two);
    ExponentexpOfNumber(s[4], d);
    ExpressionIsExponentexp(s[4], d);
    RootParen(s[3], d, Parsed(three, s[5]));
    RootNumber(s[7], d);
    RootNumber(s[1], d);
    CaretStep(0, t1, s[6], d, Parsed(two, s[8]));
    CaretStep(0, two, s[2], d, Parsed(three, s[6]));
    assert Exponentexp(s[1], d) == Success(Parsed(t2, s[8]));
    ExpressionIsExponentexp(s[1], d);
  }

  /** `2^(3)^2` is parsed as `(2^3)^2`: the parenthesis switches the
      end-of-run flag off, so that nothing is repaired and the chain is
      folded from the left. */
  lemma GroupedPower(d: Doubles, input: string)
    requires input == "2^(3)^2"
    requires d.valueOf("2") == Some(2.0) && d.valueOf("3") == Some(3.0)
    ensures var two := Leaf(d.toString(2.0));
            var three := Leaf(d.toString(3.0));
            Parse(input, d) == ParseReport(Some(Node("^", Node("^", two, three), two)), None)
  {
    GroupedPowerSplit(input);
    var raw := GroupedPowerRaw();
    var s := GroupedPowerStates(raw);
    assert Tokenized(input) == s[0];
    GroupedPowerTrace(d, raw, s);
    GroupedPowerTree(d, raw, s);
  }

  /** The raw tokens and lexer states of `2+3*2^2`. */
  function MixedRaw(): seq<string> { ["2", "+", "3", "*", "2", "^", "2"] }

  function MixedStates(raw: seq<string>): seq<LexState>
  {
    [ Initial(raw),
      LexState(raw, 1, NumberToken, 2.0, false, false),
      LexState(raw, 2, '+' as int, 2.0, false, false),
      LexState(raw, 3, NumberToken, 3.0, false, false),
      LexState(raw, 4, '*' as int, 3.0, false, false),
      LexState(raw, 5, NumberToken, 2.0, false, false),
      LexState(raw, 6, '^' as int, 2.0, true, false),
      LexState(raw, 7, NumberToken, 2.0, true, false),
      LexState(raw, 7, EolnToken, 2.0, true, false) ]
  }

  lemma MixedSplit(s: string)
    requires s == "2+3*2^2"
    ensures SplitFrom(s, 0) == MixedRaw()
  {
    SplitSingle(s, 6);
    SplitSingle(s, 5);
    SplitSingle(s, 4);
    SplitSingle(s, 3);
    SplitSingle(s, 2);
    SplitSingle(s, 1);
    SplitSingle(s, 0);
  }

  lemma MixedStep0(d: Doubles, raw: seq<string>, s: seq<LexState>)
    requires raw == MixedRaw() && s == MixedStates(raw)
    requires d.valueOf("2") == Some(2.0)
    requires Good(s[0], d)
    ensures Step(s[0], d) == Success(s[1]) && Good(s[1], d)
  {
    StepNumber(s[0], d, 2.0, s[1]);
  }

  lemma MixedStep1(d: Doubles, raw: seq<string>, s: seq<LexState>)
    requires raw == MixedRaw() && s == MixedStates(raw)
    requires Good(s[1], d)
    ensures Step(s[1], d) == Success(s[2]) && Good(s[2], d)
  {
    StepSymbol(s[1], d, s[2]);
  }

  lemma MixedStep2(d: Doubles, raw: seq<string>, s: seq<LexState>)
    requires raw == MixedRaw() && s == MixedStates(raw)
    requires d.valueOf("3") == Some(3.0)
    requires Good(s[2], d)
    ensures Step(s[2], d) == Success(s[3]) && Good(s[3], d)
  {
    StepNumber(s[2], d, 3.0, s[3]);
  }

  lemma MixedStep3(d: Doubles, raw: seq<string>, s: seq<LexState>)
    requires raw == MixedRaw() && s == MixedStates(raw)
    requires Good(s[3], d)
    ensures Step(s[3], d) == Success(s[4]) && Good(s[4], d)
  {
    StepSymbol(s[3], d, s[4]);
  }

  lemma MixedStep4(d: Doubles, raw: seq<string>, s: seq<LexState>)
    requires raw == MixedRaw() && s == MixedStates(raw)
    requires d.valueOf("2") == Some(2.0)
    requires Good(s[4], d)
    ensures Step(s[4], d) == Success(s[5]) && Good(s[5], d)
  {
    StepNumber(s[4], d, 2.0, s[5]);
  }

  lemma MixedStep5(d: Doubles, raw: seq<string>, s: seq<LexState>)
    requires raw == MixedRaw() && s == MixedStates(raw)
    requires Good(s[5], d)
    ensures Step(s[5], d) == Success(s[6]) && Good(s[6], d)
  {
    StepSymbol(s[5], d, s[6]);
  }

  lemma MixedStep6(d: Doubles, raw: seq<string>, s: seq<LexState>)
    requires raw == MixedRaw() && s == MixedStates(raw)
    requires d.valueOf("2") == Some(2.0)
    requires Good(s[6], d)
    ensures Step(s[6], d) == Success(s[7]) && Good(s[7], d)
  {
    StepNumber(s[6], d, 2.0, s[7]);
  }

  lemma MixedTrace(d: Doubles, raw: seq<string>, s: seq<LexState>)
    requires raw == MixedRaw() && s == MixedStates(raw)
    requires d.valueOf("2") == Some(2.0) && d.valueOf("3") == Some(3.0)
    requires Good(s[0], d)
    ensures Step(s[0], d) == Success(s[1]) && Step(s[1], d) == Success(s[2])
            && Step(s[2], d) == Success(s[3]) && Step(s[3], d) == Success(s[4])
            && Step(s[4], d) == Success(s[5]) && Step(s[5], d) == Success(s[6])
            && Step(s[6], d) == Success(s[7]) && Step(s[7], d) == Success(s[8])
  {
    MixedStep0(d, raw, s);
    MixedStep1(d, raw, s);
    MixedStep2(d, raw, s);
    MixedStep3(d, raw, s);
    MixedStep4(d, raw, s);
    MixedStep5(d, raw, s);
    MixedStep6(d, raw, s);
  }

  /** The parse of the tokens of `2+3*2^2` from its first token. */
  lemma MixedPrecedenceTree(d: Doubles, raw: seq<string>, s: seq<LexState>)
    requires raw == MixedRaw() && s == MixedStates(raw)
    requires d.valueOf("2") == Some(2.0) && d.valueOf("3") == Some(3.0)
    requires Good(s[0], d)
    ensures var two := Leaf(d.toString(2.0));
            var three := Leaf(d.toString(3.0));
            Expression(s[1], d) == Success(Parsed(Node("+", two, Node("*", three, Node("^", two, two))), s[8]))
  {
    MixedTrace(d, raw, s);
    var two := Leaf(d.toString(2.0));
    var three := Leaf(d.toString(3.0));
    var power := Node("^", two, two);
    var product := Node("*", three, power);
    RootNumber(s[7], d);
    RootNumber(s[5], d);
    CaretStep(0, two, s[6], d, Parsed(two, s[8]));
    assert Exponentexp(s[5], d) == Success(Parsed(power, s[8]));
    ExponentexpOfNumber(s[3], d);
    MulStep(three, s[4], d, Parsed(power, s[8]));
    assert Mulexp(s[3], d) == Success(Parsed(product, s[8]));
    MulexpOfNumber(s[1], d);
    AddStep(two, s[2], d, Parsed(product, s[8]));
    assert AddExp(s[1], d) == Success(Parsed(Node("+", two, product), s[8]));
    ExpressionIsAddExp(s[1], d);
  }

  /** `2+3*2^2` is parsed as `2+(3*(2^2))`: `^` binds tighter than `*`, and
      `*` tighter than `+` (TestInterpreter.java:7). */
  lemma MixedPrecedence(d: Doubles, input: string)
    requires input == "2+3*2^2"
    requires d.valueOf("2") == Some(2.0) && d.valueOf("3") == Some(3.0)
    ensures var two := Leaf(d.toString(2.0));
            var three := Leaf(d.toString(3.0));
            Parse(input, d)
              == ParseReport(Some(Node("+", two, Node("*", three, Node("^", two, two)))), None)
  {
    MixedSplit(input);
    var raw := MixedRaw();
    var s := MixedStates(raw);
    assert Tokenized(input) == s[0];
    MixedTrace(d, raw, s);
    MixedPrecedenceTree(d, raw, s);
  }

  /** The raw tokens and lexer states of `1-2-3`. */
  function DifferenceRaw(): seq<string> { ["1", "-", "2", "-", "3"] }

  function DifferenceStates(raw: seq<string>): seq<LexState>
  {
    [ Initial(raw),
      LexState(raw, 1, NumberToken, 1.0, false, false),
      LexState(raw, 2, '-' as int, 1.0, false, false),
      LexState(raw, 3, NumberToken, 2.0, false, false),
      LexState(raw, 4, '-' as int, 2.0, false, false),
      LexState(raw, 5, NumberToken, 3.0, false, false),
      LexState(raw, 5, EolnToken, 3.0, false, false) ]
  }

  lemma DifferenceSplit(s: string)
    requires s == "1-2-3"
    ensures SplitFrom(s, 0) == DifferenceRaw()
  {
    SplitSingle(s, 4);
    SplitSingle(s, 3);
    SplitSingle(s, 2);
    SplitSingle(s, 1);
    SplitSingle(s, 0);
  }

  lemma DifferenceStep0(d: Doubles, raw: seq<string>, s: seq<LexState>)
    requires raw == DifferenceRaw() && s == DifferenceStates(raw)
    requires d.valueOf("1") == Some(1.0)
    requires Good(s[0], d)
    ensures Step(s[0], d) == Success(s[1]) && Good(s[1], d)
  {
    StepNumber(s[0], d, 1.0, s[1]);
  }

  lemma DifferenceStep1(d: Doubles, raw: seq<string>, s: seq<LexState>)
    requires raw == DifferenceRaw() && s == DifferenceStates(raw)
    requires Good(s[1], d)
    ensures Step(s[1], d) == Success(s[2]) && Good(s[2], d)
  {
    StepSymbol(s[1], d, s[2]);
  }

  lemma DifferenceStep2(d: Doubles, raw: seq<string>, s: seq<LexState>)
    requires raw == DifferenceRaw() && s == DifferenceStates(raw)
    requires d.valueOf("2") == Some(2.0)
    requires Good(s[2], d)
    ensures Step(s[2], d) == Success(s[3]) && Good(s[3], d)
  {
    StepNumber(s[2], d, 2.0, s[3]);
  }

  lemma DifferenceStep3(d: Doubles, raw: seq<string>, s: seq<LexState>)
    requires raw == DifferenceRaw() && s == DifferenceStates(raw)
    requires Good(s[3], d)
    ensures Step(s[3], d) == Success(s[4]) && Good(s[4], d)
  {
    StepSymbol(s[3], d, s[4]);
  }

  lemma DifferenceStep4(d: Doubles, raw: seq<string>, s: seq<LexState>)
    requires raw == DifferenceRaw() && s == DifferenceStates(raw)
    requires d.valueOf("3") == Some(3.0)
    requires Good(s[4], d)
    ensures Step(s[4], d) == Success(s[5]) && Good(s[5], d)
  {
    StepNumber(s[4], d, 3.0, s[5]);
  }

  lemma DifferenceTrace(d: Doubles, raw: seq<string>, s: seq<LexState>)
    requires raw == DifferenceRaw() && s == DifferenceStates(raw)
    requires d.valueOf("1") == Some(1.0) && d.valueOf("2") == Some(2.0) && d.valueOf("3") == Some(3.0)
    requires Good(s[0], d)
    ensures Step(s[0], d) == Success(s[1]) && Step(s[1], d) == Success(s[2])
            && Step(s[2], d) == Success(s[3]) && Step(s[3], d) == Success(s[4])
            && Step(s[4], d) == Success(s[5]) && Step(s[5], d) == Success(s[6])
  {
    DifferenceStep0(d, raw, s);
    DifferenceStep1(d, raw, s);
    DifferenceStep2(d, raw, s);
    DifferenceStep3(d, raw, s);
    DifferenceStep4(d, raw, s);
  }

  /** The parse of the tokens of `1-2-3` from its first token. */
  lemma DifferenceGroupsLeftTree(d: Doubles, raw: seq<string>, s: seq<LexState>)
    requires raw == DifferenceRaw() && s == DifferenceStates(raw)
    requires d.valueOf("1") == Some(1.0) && d.valueOf("2") == Some(2.0) && d.valueOf("3") == Some(3.0)
    requires Good(s[0], d)
    ensures var one := Leaf(d.toString(1.0));
            var two := Leaf(d.toString(2.0));
            var three := Leaf(d.toString(3.0));
            Expression(s[1], d) == Success(Parsed(Node("-", Node("-", one, two), three), s[6]))
  {
    DifferenceTrace(d, raw, s);
    var one := Leaf(d.toString(1.0));
    var two := Leaf(d.toString(2.0));
    var three := Leaf(d.toString(3.0));
    MulexpOfNumber(s[5], d);
    MulexpOfNumber(s[3], d);
    MulexpOfNumber(s[1], d);
    AddStep(Node("-", one, two), s[4], d, Parsed(three, s[6]));
    AddStep(one, s[2], d, Parsed(two, s[4]));
    assert AddExp(s[1], d) == Success(Parsed(Node("-", Node("-", one, two), three), s[6]));
    ExpressionIsAddExp(s[1], d);
  }

  /** `1-2-3` is parsed as `(1-2)-3`: `-` groups from the left. */
  lemma DifferenceGroupsLeft(d: Doubles, input: string)
    requires input == "1-2-3"
    requires d.valueOf("1") == Some(1.0) && d.valueOf("2") == Some(2.0) && d.valueOf("3") == Some(3.0)
    ensures var one := Leaf(d.toString(1.0));
            var two := Leaf(d.toString(2.0));
            var three := Leaf(d.toString(3.0));
            Parse(input, d) == ParseReport(Some(Node("-", Node("-", one, two), three)), None)
  {
    DifferenceSplit(input);
    var raw := DifferenceRaw();
    var s := DifferenceStates(raw);
    assert Tokenized(input) == s[0];
    DifferenceTrace(d, raw, s);
    DifferenceGroupsLeftTree(d, raw, s);
  }

  /** The raw tokens and lexer states of `2^1^2#3^1`. */
  function MaximumRaw(): seq<string> { ["2", "^", "1", "^", "2", "#", "3", "^", "1"] }

  function MaximumStates(raw: seq<string>): seq<LexState>
  {
    [ Initial(raw),
      LexState(raw, 1, NumberToken, 2.0, false, false),
      LexState(raw, 2, '^' as int, 2.0, true, false),
      LexState(raw, 3, NumberToken, 1.0, true, false),
      LexState(raw, 4, '^' as int, 1.0, false, true),
      LexState(raw, 5, NumberToken, 2.0, false, true),
      LexState(raw, 6, '#' as int, 2.0, false, true),
      LexState(raw, 7, NumberToken, 3.0, false, true),
      LexState(raw, 8, '^' as int, 3.0, true, false),
      LexState(raw, 9, NumberToken, 1.0, true, false),
      LexState(raw, 9, EolnToken, 1.0, true, false) ]
  }

  lemma MaximumSplit(s: string)
    requires s == "2^1^2#3^1"
    ensures SplitFrom(s, 0) == MaximumRaw()
  {
    SplitSingle(s, 8);
    SplitSingle(s, 7);
    SplitSingle(s, 6);
    SplitSingle(s, 5);
    SplitSingle(s, 4);
    SplitSingle(s, 3);
    SplitSingle(s, 2);
    SplitSingle(s, 1);
    SplitSingle(s, 0);
  }

  lemma MaximumStep0(d: Doubles, raw: seq<string>, s: seq<LexState>)
    requires raw == MaximumRaw() && s == MaximumStates(raw)
    requires d.valueOf("2") == Some(2.0)
    requires Good(s[0], d)
    ensures Step(s[0], d) == Success(s[1]) && Good(s[1], d)
  {
    StepNumber(s[0], d, 2.0, s[1]);
  }

  lemma MaximumStep1(d: Doubles, raw: seq<string>, s: seq<LexState>)
    requires raw == MaximumRaw() && s == MaximumStates(raw)
    requires Good(s[1], d)
    ensures Step(s[1], d) == Success(s[2]) && Good(s[2], d)
  {
    StepSymbol(s[1], d, s[2]);
  }

  lemma MaximumStep2(d: Doubles, raw: seq<string>, s: seq<LexState>)
    requires raw == MaximumRaw() && s == MaximumStates(raw)
    requires d.valueOf("1") == Some(1.0)
    requires Good(s[2], d)
    ensures Step(s[2], d) == Success(s[3]) && Good(s[3], d)
  {
    StepNumber(s[2], d, 1.0, s[3]);
  }

  lemma MaximumStep3(d: Doubles, raw: seq<string>, s: seq<LexState>)
    requires raw == MaximumRaw() && s == MaximumStates(raw)
    requires Good(s[3], d)
    ensures Step(s[3], d) == Success(s[4]) && Good(s[4], d)
  {
    StepSymbol(s[3], d, s[4]);
  }

  lemma MaximumStep4(d: Doubles, raw: seq<string>, s: seq<LexState>)
    requires raw == MaximumRaw() && s == MaximumStates(raw)
    requires d.valueOf("2") == Some(2.0)
    requires Good(s[4], d)
    ensures Step(s[4], d) == Success(s[5]) && Good(s[5], d)
  {
    StepNumber(s[4], d, 2.0, s[5]);
  }

  lemma MaximumStep5(d: Doubles, raw: seq<string>, s: seq<LexState>)
    requires raw == MaximumRaw() && s == MaximumStates(raw)
    requires Good(s[5], d)
    ensures Step(s[5], d) == Success(s[6]) && Good(s[6], d)
  {
    StepSymbol(s[5], d, s[6]);
  }

  lemma MaximumStep6(d: Doubles, raw: seq<string>, s: seq<LexState>)
    requires raw == MaximumRaw() && s == MaximumStates(raw)
    requires d.valueOf("3") == Some(3.0)
    requires Good(s[6], d)
    ensures Step(s[6], d) == Success(s[7]) && Good(s[7], d)
  {
    StepNumber(s[6], d, 3.0, s[7]);
  }

  lemma MaximumStep7(d: Doubles, raw: seq<string>, s: seq<LexState>)
    requires raw == MaximumRaw() && s == MaximumStates(raw)
    requires Good(s[7], d)
    ensures Step(s[7], d) == Success(s[8]) && Good(s[8], d)
  {
    StepSymbol(s[7], d, s[8]);
  }

  lemma MaximumStep8(d: Doubles, raw: seq<string>, s: seq<LexState>)
    requires raw == MaximumRaw() && s == MaximumStates(raw)
    requires d.valueOf("1") == Some(1.0)
    requires Good(s[8], d)
    ensures Step(s[8], d) == Success(s[9]) && Good(s[9], d)
  {
    StepNumber(s[8], d, 1.0, s[9]);
  }

  lemma MaximumTrace(d: Doubles, raw: seq<string>, s: seq<LexState>)
    requires raw == MaximumRaw() && s == MaximumStates(raw)
    requires d.valueOf("1") == Some(1.0) && d.valueOf("2") == Some(2.0) && d.valueOf("3") == Some(3.0)
    requires Good(s[0], d)
    ensures Step(s[0], d) == Success(s[1]) && Step(s[1], d) == Success(s[2])
            && Step(s[2], d) == Success(s[3]) && Step(s[3], d) == Success(s[4])
            && Step(s[4], d) == Success(s[5]) && Step(s[5], d) == Success(s[6])
            && Step(s[6], d) == Success(s[7]) && Step(s[7], d) == Success(s[8])
            && Step(s[8], d) == Success(s[9]) && Step(s[9], d) == Success(s[10])
  {
    MaximumStep0(d, raw, s);
    MaximumStep1(d, raw, s);
    MaximumStep2(d, raw, s);
    MaximumStep3(d, raw, s);
    MaximumStep4(d, raw, s);
    MaximumStep5(d, raw, s);
    MaximumStep6(d, raw, s);
    MaximumStep7(d, raw, s);
    MaximumStep8(d, raw, s);
  }

  /** The parse of the tokens of `2^1^2#3^1` from its first token. */
  lemma MaximumOfPowersTree(d: Doubles, raw: seq<string>, s: seq<LexState>)
    requires raw == MaximumRaw() && s == MaximumStates(raw)
    requires d.valueOf("1") == Some(1.0) && d.valueOf("2") == Some(2.0) && d.valueOf("3") == Some(3.0)
    requires Good(s[0], d)
    ensures var one := Leaf(d.toString(1.0));
            var two := Leaf(d.toString(2.0));
            var three := Leaf(d.toString(3.0));
            Expression(s[1], d) == Success(Parsed(Node("#", Node("^", two, Node("^", one, two)), Node("^", three, one)), s[10]))
  {
    MaximumTrace(d, raw, s);
    var one := Leaf(d.toString(1.0));
    var two := Leaf(d.toString(2.0));
    var three := Leaf(d.toString(3.0));
    var left := Node("^", two, Node("^", one, two));
    var right := Node("^", three, one);
    RootNumber(s[9], d);
    RootNumber(s[7], d);
    CaretStep(0, three, s[8], d, Parsed(one, s[10]));
    assert Exponentexp(s[7], d) == Success(Parsed(right, s[10]));
    MulexpIsExponentexp(s[7], d);
    AddExpIsMulexp(s[7], d);
    RootNumber(s[5], d);
    RootNumber(s[3], d);
    RootNumber(s[1], d);
    CaretStep(1, Node("^", one, two), s[4], d, Parsed(two, s[6]));
    CaretStep(0, two, s[2], d, Parsed(one, s[4]));
    assert Exponentexp(s[1], d) == Success(Parsed(left, s[6]));
    MulexpIsExponentexp(s[1], d);
    AddExpIsMulexp(s[1], d);
    HashStep(left, s[6], d, Parsed(right, s[10]));
  }

  /** `2^1^2#3^1` is parsed as `(2^(1^2)) # (3^1)`: `#` binds loosest, and
      the end-of-run flag set by the second `^` survives the `#`
      (TestInterpreter.java:11). */
  lemma MaximumOfPowers(d: Doubles, input: string)
    requires input == "2^1^2#3^1"
    requires d.valueOf("1") == Some(1.0) && d.valueOf("2") == Some(2.0) && d.valueOf("3") == Some(3.0)
    ensures var one := Leaf(d.toString(1.0));
            var two := Leaf(d.toString(2.0));
            var three := Leaf(d.toString(3.0));
            Parse(input, d)
              == ParseReport(Some(Node("#", Node("^", two, Node("^", one, two)), Node("^", three, one))), None)
  {
    MaximumSplit(input);
    var raw := MaximumRaw();
    var s := MaximumStates(raw);
    assert Tokenized(input) == s[0];
    MaximumTrace(d, raw, s);
    MaximumOfPowersTree(d, raw, s);
  }

}
