/** Whatever the `^` repair of CalcParser.java:139-146 does, a parse tree
    holds the symbols of the tokens its routine consumed, each as often as
    it was read: every number token read is a leaf showing its value, every
    operator token an operator node, and nothing else is in the tree. This
    holds on every input. The repair moves operands about, so only the
    multiset of the reading is kept, not its order. */
module ParserReads {
  import opened Wrappers
  import opened Trees
  import opened Lexer
  import opened Parser
  import opened ParserYield

  /** `p` was parsed from `st`, and the symbols of its tree are `before` and
      those of the text of the tokens consumed. */
  ghost predicate Reads(st: LexState, p: Parsed, before: multiset<string>, d: Doubles)
  {
    && p.rest.raw == st.raw && st.cursor <= |st.raw| && p.rest.cursor <= |st.raw|
    && NonEmpty(st.raw) && Started(p.rest) && Pos(st) <= Pos(p.rest)
    && multiset(Yield(p.tree)) == before + multiset(Text(st.raw, Pos(st), Pos(p.rest), d))
  }

  /** The symbols of a node built by the parser. */
  lemma NodeSymbols(op: string, left: TreeNode, right: TreeNode)
    ensures multiset(Yield(Node(op, left, right)))
            == multiset(Yield(left)) + multiset{op} + multiset(Yield(right))
  {
    assert Yield(Node(op, left, right)) == Yield(left) + [op] + Yield(right);
  }

  /** The swap and the rotation only move subtrees about. */
  lemma RepairKeepsSymbols(i: nat, node: TreeNode, endCheck: bool)
    requires IsCaretNode(node) && (i > 0 ==> IsCaretNode(node.left.value))
    ensures multiset(Yield(Repair(i, node, endCheck).1)) == multiset(Yield(node))
  {
    if endCheck && i == 0 {
      SwapKeepsSymbols(node);
    } else if endCheck {
      RotateKeepsSymbols(node);
    }
  }

  /** The symbols of a new `^` node after its repair. */
  lemma CaretSymbols(i: nat, acc: TreeNode, right: TreeNode, endCheck: bool)
    requires i > 0 ==> IsCaretNode(acc)
    ensures multiset(Yield(Repair(i, Node("^", acc, right), endCheck).1))
            == multiset(Yield(acc)) + multiset{"^"} + multiset(Yield(right))
  {
    NodeSymbols("^", acc, right);
    RepairKeepsSymbols(i, Node("^", acc, right), endCheck);
  }

  lemma SwapKeepsSymbols(node: TreeNode)
    requires IsCaretNode(node)
    ensures multiset(Yield(Swap(node))) == multiset(Yield(node))
  {
    var a, c := node.left.value, node.right.value;
    assert Yield(node) == Yield(a) + [node.symbol] + Yield(c);
    assert Yield(Swap(node)) == Yield(c) + [node.symbol] + Yield(a);
  }

  lemma RotateKeepsSymbols(node: TreeNode)
    requires IsCaretNode(node) && IsCaretNode(node.left.value)
    ensures multiset(Yield(Rotate(node))) == multiset(Yield(node))
  {
    var a, c := node.left.value, node.right.value;
    var a1, b1 := a.left.value, a.right.value;
    assert Yield(node) == Yield(a) + [node.symbol] + Yield(c);
    assert Yield(a) == Yield(a1) + [a.symbol] + Yield(b1);
    var inner := TreeNode(node.symbol, a.left, node.right);
    assert Yield(inner) == Yield(a1) + [node.symbol] + Yield(c);
    assert Yield(Rotate(node)) == Yield(b1) + [node.symbol] + Yield(inner);
  }

  /** The multiset arithmetic behind `ReadsThen`, on plain positions. */
  lemma SumTexts(raw: seq<string>, a: nat, b: nat, c: nat, y1: multiset<string>, y2: multiset<string>,
                 before: multiset<string>, d: Doubles)
    requires a <= b <= c <= |raw| && NonEmpty(raw)
    requires y1 == before + multiset(Text(raw, a, b, d)) && y2 == y1 + multiset(Text(raw, b, c, d))
    ensures y2 == before + multiset(Text(raw, a, c, d))
  {
    TextSplit(raw, a, b, c, d);
  }

  /** Two stretches of tokens read one after the other. */
  lemma ReadsThen(st: LexState, p: Parsed, q: Parsed, before: multiset<string>, d: Doubles)
    requires Reads(st, p, before, d) && Reads(p.rest, q, multiset(Yield(p.tree)), d)
    ensures Reads(st, q, before, d)
  {
    SumTexts(st.raw, Pos(st), Pos(p.rest), Pos(q.rest), multiset(Yield(p.tree)), multiset(Yield(q.tree)), before, d);
  }

  /** The multiset arithmetic behind `ReadsRound`, on plain positions. */
  lemma SumStep(raw: seq<string>, a: nat, b: nat, c: nat, e: nat, x: seq<string>,
                w: multiset<string>, right: multiset<string>, node: multiset<string>, y: multiset<string>, d: Doubles)
    requires a <= b <= c <= e <= |raw| && NonEmpty(raw)
    requires Text(raw, a, b, d) == x && right == multiset(Text(raw, b, c, d))
    requires node == w + multiset(x) + right && y == node + multiset(Text(raw, c, e, d))
    ensures y == w + multiset(Text(raw, a, e, d))
  {
    TextSplit(raw, b, c, e, d);
    TextSplit(raw, a, b, e, d);
  }

  /** One round of any operator loop: the operator, its operand `p`, a node
      `node` holding the symbols of both and of the accumulator, then the
      rest `q` of the loop. */
  lemma ReadsRound(acc: TreeNode, st: LexState, p: Parsed, q: Parsed, node: TreeNode, d: Doubles)
    requires Good(st, d) && Started(st) && IsOperatorToken(st.tok) && Matched(st, st.tok, d).Success?
    requires Reads(Matched(st, st.tok, d).value, p, multiset{}, d)
    requires multiset(Yield(node)) == multiset(Yield(acc)) + multiset{[st.tok as char]} + multiset(Yield(p.tree))
    requires Reads(p.rest, q, multiset(Yield(node)), d)
    ensures Reads(st, q, multiset(Yield(acc)), d)
  {
    MatchedText(st, st.tok, d);
    var m := Matched(st, st.tok, d).value;
    OperatorText(st, d);
    SumStep(st.raw, Pos(st), Pos(m), Pos(p.rest), Pos(q.rest), [[st.tok as char]],
            multiset(Yield(acc)), multiset(Yield(p.tree)), multiset(Yield(node)), multiset(Yield(q.tree)), d);
  }

  /** An operator token reads as itself. */
  lemma OperatorText(st: LexState, d: Doubles)
    requires Good(st, d) && IsOperatorToken(st.tok)
    ensures TokenText(st, d) == [[st.tok as char]]
  {
  }

  /** The multiset arithmetic behind `ReadsParen`, on plain positions. */
  lemma SumWrap(raw: seq<string>, a: nat, b: nat, c: nat, e: nat, y: multiset<string>, d: Doubles)
    requires a <= b <= c <= e <= |raw| && NonEmpty(raw)
    requires Text(raw, a, b, d) == [] && Text(raw, c, e, d) == []
    requires y == multiset(Text(raw, b, c, d))
    ensures y == multiset(Text(raw, a, e, d))
  {
    TextSplit(raw, a, b, e, d);
    TextSplit(raw, b, c, e, d);
  }

  /** The parentheses around an operand `p` add no symbol. */
  lemma ReadsParen(st: LexState, p: Parsed, d: Doubles)
    requires Good(st, d) && Started(st) && st.tok == '(' as int && Matched(st, '(' as int, d).Success?
    requires Reads(Matched(st, '(' as int, d).value, p, multiset{}, d)
    requires Good(p.rest, d) && p.rest.tok == ')' as int && Matched(p.rest, ')' as int, d).Success?
    ensures Reads(st, Parsed(p.tree, Matched(p.rest, ')' as int, d).value), multiset{}, d)
  {
    MatchedText(st, '(' as int, d);
    MatchedText(p.rest, ')' as int, d);
    var open, close := Matched(st, '(' as int, d).value, Matched(p.rest, ')' as int, d).value;
    SumWrap(st.raw, Pos(st), Pos(open), Pos(p.rest), Pos(close), multiset(Yield(p.tree)), d);
  }

  /** `parseExpression()` holds the symbols it read. */
  lemma ExpressionReads(st: LexState, d: Doubles)
    requires Good(st, d) && Started(st)
    ensures var r := Expression(st, d);
            r.Success? ==> Reads(st, r.value, multiset{}, d)
    decreases Measure(st), 9
  {
    var first := AddExp(st, d);
    if first.Success? {
      AddExpReads(st, d);
      var p := first.value;
      ExpressionLoopReads(p.tree, p.rest, d);
      var r := ExpressionLoop(p.tree, p.rest, d);
      assert Expression(st, d) == r;
      if r.Success? {
        ReadsThen(st, p, r.value, multiset{}, d);
      }
    }
  }

  /** The `#` loop adds the symbols it read to those of its accumulator. */
  lemma ExpressionLoopReads(acc: TreeNode, st: LexState, d: Doubles)
    requires Good(st, d) && Started(st) && Full(acc, d.toString)
    ensures var r := ExpressionLoop(acc, st, d);
            r.Success? ==> Reads(st, r.value, multiset(Yield(acc)), d)
    decreases Measure(st), 8
  {
    var r := ExpressionLoop(acc, st, d);
    if r.Success? && st.tok == '#' as int {
      ExpressionLoopUnroll(acc, st, d);
      var p := AddExp(Matched(st, '#' as int, d).value, d).value;
      AddExpReads(Matched(st, '#' as int, d).value, d);
      NodeSymbols("#", acc, p.tree);
      ExpressionLoopReads(Node("#", acc, p.tree), p.rest, d);
      ReadsRound(acc, st, p, r.value, Node("#", acc, p.tree), d);
    }
  }

  /** `parseAddExp()` holds the symbols it read. */
  lemma AddExpReads(st: LexState, d: Doubles)
    requires Good(st, d) && Started(st)
    ensures var r := AddExp(st, d);
            r.Success? ==> Reads(st, r.value, multiset{}, d)
    decreases Measure(st), 7
  {
    var first := Mulexp(st, d);
    if first.Success? {
      MulexpReads(st, d);
      var p := first.value;
      AddExpLoopReads(p.tree, p.rest, d);
      var r := AddExpLoop(p.tree, p.rest, d);
      assert AddExp(st, d) == r;
      if r.Success? {
        ReadsThen(st, p, r.value, multiset{}, d);
      }
    }
  }

  /** The `+`/`-` loop adds the symbols it read to those of its accumulator. */
  lemma AddExpLoopReads(acc: TreeNode, st: LexState, d: Doubles)
    requires Good(st, d) && Started(st) && Full(acc, d.toString)
    ensures var r := AddExpLoop(acc, st, d);
            r.Success? ==> Reads(st, r.value, multiset(Yield(acc)), d)
    decreases Measure(st), 6
  {
    var r := AddExpLoop(acc, st, d);
    if r.Success? && (st.tok == '+' as int || st.tok == '-' as int) {
      AddExpLoopUnroll(acc, st, d);
      var p := Mulexp(Matched(st, st.tok, d).value, d).value;
      MulexpReads(Matched(st, st.tok, d).value, d);
      NodeSymbols([st.tok as char], acc, p.tree);
      AddExpLoopReads(Node([st.tok as char], acc, p.tree), p.rest, d);
      ReadsRound(acc, st, p, r.value, Node([st.tok as char], acc, p.tree), d);
    }
  }

  /** `parseMulexp()` holds the symbols it read. */
  lemma MulexpReads(st: LexState, d: Doubles)
    requires Good(st, d) && Started(st)
    ensures var r := Mulexp(st, d);
            r.Success? ==> Reads(st, r.value, multiset{}, d)
    decreases Measure(st), 5
  {
    var first := Exponentexp(st, d);
    if first.Success? {
      ExponentexpReads(st, d);
      var p := first.value;
      MulexpLoopReads(p.tree, p.rest, d);
      var r := MulexpLoop(p.tree, p.rest, d);
      assert Mulexp(st, d) == r;
      if r.Success? {
        ReadsThen(st, p, r.value, multiset{}, d);
      }
    }
  }

  /** The `*`/`/` loop adds the symbols it read to those of its accumulator. */
  lemma MulexpLoopReads(acc: TreeNode, st: LexState, d: Doubles)
    requires Good(st, d) && Started(st) && Full(acc, d.toString)
    ensures var r := MulexpLoop(acc, st, d);
            r.Success? ==> Reads(st, r.value, multiset(Yield(acc)), d)
    decreases Measure(st), 4
  {
    var r := MulexpLoop(acc, st, d);
    if r.Success? && (st.tok == '*' as int || st.tok == '/' as int) {
      MulexpLoopUnroll(acc, st, d);
      var p := Exponentexp(Matched(st, st.tok, d).value, d).value;
      ExponentexpReads(Matched(st, st.tok, d).value, d);
      NodeSymbols([st.tok as char], acc, p.tree);
      MulexpLoopReads(Node([st.tok as char], acc, p.tree), p.rest, d);
      ReadsRound(acc, st, p, r.value, Node([st.tok as char], acc, p.tree), d);
    }
  }

  /** `parseExponentexp()` holds the symbols it read, repairs included. */
  lemma ExponentexpReads(st: LexState, d: Doubles)
    requires Good(st, d) && Started(st)
    ensures var r := Exponentexp(st, d);
            r.Success? ==> Reads(st, r.value, multiset{}, d)
    decreases Measure(st), 3
  {
    var first := Rootexp(st, d);
    if first.Success? {
      RootexpReads(st, d);
      var p := first.value;
      ExponentexpLoopReads(0, p.tree, p.rest, d);
      var r := ExponentexpLoop(0, p.tree, p.rest, d);
      assert Exponentexp(st, d) == r;
      if r.Success? {
        ReadsThen(st, p, r.value, multiset{}, d);
      }
    }
  }

  /** The `^` loop, swaps and rotations included, adds the symbols it read
      to those of its accumulator. */
  lemma ExponentexpLoopReads(i: nat, acc: TreeNode, st: LexState, d: Doubles)
    requires Good(st, d) && Started(st) && Full(acc, d.toString)
    requires i > 0 ==> IsCaretNode(acc)
    ensures var r := ExponentexpLoop(i, acc, st, d);
            r.Success? ==> Reads(st, r.value, multiset(Yield(acc)), d)
    decreases Measure(st), 2
  {
    var r := ExponentexpLoop(i, acc, st, d);
    if r.Success? && st.tok == '^' as int {
      ExponentexpLoopUnroll(i, acc, st, d);
      var p := Rootexp(Matched(st, '^' as int, d).value, d).value;
      RootexpReads(Matched(st, '^' as int, d).value, d);
      var next := Repair(i, Node("^", acc, p.tree), p.rest.end);
      CaretSymbols(i, acc, p.tree, p.rest.end);
      assert [st.tok as char] == "^";
      ExponentexpLoopReads(next.0, next.1, p.rest, d);
      ReadsRound(acc, st, p, r.value, next.1, d);
    }
  }

  /** `parseRootexp()` holds the number it read, or the symbols of the
      parenthesized expression. */
  lemma RootexpReads(st: LexState, d: Doubles)
    requires Good(st, d) && Started(st)
    ensures var r := Rootexp(st, d);
            r.Success? ==> Reads(st, r.value, multiset{}, d)
    decreases Measure(st), 1
  {
    if st.tok == '(' as int && Rootexp(st, d).Success? {
      ParenUnroll(st, d);
      var m1 := Matched(st, '(' as int, d).value;
      ExpressionReads(m1, d);
      ReadsParen(st, Expression(m1, d).value, d);
    } else if st.tok == NumberToken && Matched(st, NumberToken, d).Success? {
      MatchedText(st, NumberToken, d);
    }
  }

  /** On every input, the tree the constructor keeps holds symbols of the
      input's reading, and exactly those when there is no message. */
  lemma ParseReads(s: string, d: Doubles)
    ensures var raw := Split(s);
            var rep := Parse(s, d);
            && (rep.ast.Some? ==> multiset(Yield(rep.ast.value)) <= multiset(Text(raw, 0, |raw|, d)))
            && (rep.message.None? ==> multiset(Yield(rep.ast.value)) == multiset(Text(raw, 0, |raw|, d)))
  {
    var raw := Split(s);
    var st0 := Tokenized(s);
    assert Good(st0, d);
    var first := Step(st0, d);
    if first.Success? {
      var st := first.value;
      StepLands(st0, d);
      TextSkip(raw, 0, Pos(st), d);
      var e := Expression(st, d);
      if e.Success? {
        ExpressionReads(st, d);
        var p := e.value;
        TextSplit(raw, 0, Pos(st), Pos(p.rest), d);
        TextSplit(raw, 0, Pos(p.rest), |raw|, d);
        assert Parse(s, d).ast == Some(p.tree);
      }
    }
  }
}
