/** The parse routines of CalcParser.java:73-171 give `#` the loosest
    binding, then `+ -`, then `* /`, then `^`, and fold each of the first
    three levels from the left. For inputs without parentheses this shows in
    the tree alone: the left operand of an operator node binds at least as
    tightly as the node, and its right operand binds strictly more tightly.
    A `^` node's operands are numbers or `^` nodes. With the in-order
    reading of `ParserYield`, this fixes the tree of a `#`, `+ -` and `* /`
    expression. */
module ParserGrouping {
  import opened Wrappers
  import opened Trees
  import opened Lexer
  import opened Parser
  import opened ParserYield

  /** The level of an operator: `#` 0, `+ -` 1, `* /` 2, `^` 3. */
  function Prec(op: string): nat
  {
    if op == "#" then 0
    else if op == "+" || op == "-" then 1
    else if op == "*" || op == "/" then 2
    else 3
  }

  /** `t` binds at level `k` or tighter: a number, or an operator node of
      level `k` or above. */
  predicate Binds(t: TreeNode, k: nat)
  {
    t.IsLeaf() || Prec(t.symbol) >= k
  }

  /** How tightly the right operand of an operator must bind: one level
      tighter, except under `^`. */
  function RightLevel(op: string): nat
  {
    if Prec(op) == 3 then 3 else Prec(op) + 1
  }

  /** Every operator node of `t` has a left operand binding at least as
      tightly as it and a right operand binding as `RightLevel` says. */
  predicate Grouped(t: TreeNode)
  {
    || t.IsLeaf()
    || (&& t.IsInternal()
        && Binds(t.left.value, Prec(t.symbol)) && Binds(t.right.value, RightLevel(t.symbol))
        && Grouped(t.left.value) && Grouped(t.right.value))
  }

  /** No raw token is an opening parenthesis. */
  predicate ParenFree(raw: seq<string>)
  {
    forall k :: 0 <= k < |raw| ==> raw[k] != "("
  }

  /** The operator symbols of the `+ -` and `* /` tokens have levels 1 and
      2. */
  lemma OperatorLevel(t: int)
    requires t in {'+' as int, '-' as int, '*' as int, '/' as int}
    ensures Prec([t as char]) == if t == '+' as int || t == '-' as int then 1 else 2
  {
  }

  /** Stacking one more operand of level `k` onto an accumulator of that
      level keeps the grouping. */
  lemma FoldGrouped(op: string, acc: TreeNode, right: TreeNode, k: nat)
    requires k < 3 && Prec(op) == k
    requires Grouped(acc) && Binds(acc, k) && Grouped(right) && Binds(right, k + 1)
    ensures Grouped(Node(op, acc, right)) && Binds(Node(op, acc, right), k)
  {
  }

  /** A new `^` node stays grouped through the swap and the rotation. */
  lemma RepairGrouped(i: nat, acc: TreeNode, right: TreeNode, endCheck: bool)
    requires i > 0 ==> IsCaretNode(acc)
    requires Grouped(acc) && Binds(acc, 3) && Grouped(right) && Binds(right, 3)
    ensures var t := Repair(i, Node("^", acc, right), endCheck).1;
            Grouped(t) && Binds(t, 3)
  {
    var node := Node("^", acc, right);
    if endCheck && i > 0 {
      var a, b := acc.left.value, acc.right.value;
      assert Grouped(a) && Binds(a, 3) && Grouped(b) && Binds(b, 3);
      var inner := TreeNode("^", acc.left, node.right);
      assert Grouped(inner);
      assert Rotate(node) == TreeNode("^", acc.right, Some(inner));
    }
  }

  /** Without parentheses, `parseRootexp()` reads a number. */
  lemma RootexpGrouped(st: LexState, d: Doubles)
    requires Good(st, d) && Started(st) && ParenFree(st.raw)
    ensures var r := Rootexp(st, d);
            r.Success? ==> r.value.tree.IsLeaf() && Started(r.value.rest)
  {
    if Rootexp(st, d).Success? {
      MatchedText(st, NumberToken, d);
    }
  }

  /** `parseExpression()` groups by level. */
  lemma ExpressionGrouped(st: LexState, d: Doubles)
    requires Good(st, d) && Started(st) && ParenFree(st.raw)
    ensures var r := Expression(st, d);
            r.Success? ==> Grouped(r.value.tree) && Started(r.value.rest)
  {
    var first := AddExp(st, d);
    if first.Success? {
      AddExpGrouped(st, d);
      ExpressionLoopGrouped(first.value.tree, first.value.rest, d);
      assert Expression(st, d) == ExpressionLoop(first.value.tree, first.value.rest, d);
    }
  }

  /** The `#` loop folds from the left onto a grouped accumulator. */
  lemma ExpressionLoopGrouped(acc: TreeNode, st: LexState, d: Doubles)
    requires Good(st, d) && Started(st) && ParenFree(st.raw) && Full(acc, d.toString)
    requires Grouped(acc)
    ensures var r := ExpressionLoop(acc, st, d);
            r.Success? ==> Grouped(r.value.tree) && Started(r.value.rest)
    decreases Measure(st)
  {
    var r := ExpressionLoop(acc, st, d);
    if r.Success? && st.tok == '#' as int {
      ExpressionLoopUnroll(acc, st, d);
      var p := AddExp(Matched(st, '#' as int, d).value, d).value;
      AddExpGrouped(Matched(st, '#' as int, d).value, d);
      FoldGrouped("#", acc, p.tree, 0);
      ExpressionLoopGrouped(Node("#", acc, p.tree), p.rest, d);
    }
  }

  /** `parseAddExp()` gives a tree of level 1 or tighter. */
  lemma AddExpGrouped(st: LexState, d: Doubles)
    requires Good(st, d) && Started(st) && ParenFree(st.raw)
    ensures var r := AddExp(st, d);
            r.Success? ==> Grouped(r.value.tree) && Binds(r.value.tree, 1) && Started(r.value.rest)
  {
    var first := Mulexp(st, d);
    if first.Success? {
      MulexpGrouped(st, d);
      AddExpLoopGrouped(first.value.tree, first.value.rest, d);
      assert AddExp(st, d) == AddExpLoop(first.value.tree, first.value.rest, d);
    }
  }

  /** The `+`/`-` loop folds from the left onto an accumulator of level 1. */
  lemma AddExpLoopGrouped(acc: TreeNode, st: LexState, d: Doubles)
    requires Good(st, d) && Started(st) && ParenFree(st.raw) && Full(acc, d.toString)
    requires Grouped(acc) && Binds(acc, 1)
    ensures var r := AddExpLoop(acc, st, d);
            r.Success? ==> Grouped(r.value.tree) && Binds(r.value.tree, 1) && Started(r.value.rest)
    decreases Measure(st)
  {
    var r := AddExpLoop(acc, st, d);
    if r.Success? && (st.tok == '+' as int || st.tok == '-' as int) {
      AddExpLoopUnroll(acc, st, d);
      var op, m := [st.tok as char], Matched(st, st.tok, d).value;
      var p := Mulexp(m, d).value;
      MulexpGrouped(m, d);
      OperatorLevel(st.tok);
      FoldGrouped(op, acc, p.tree, 1);
      AddExpLoopGrouped(Node(op, acc, p.tree), p.rest, d);
    }
  }

  /** `parseMulexp()` gives a tree of level 2 or tighter. */
  lemma MulexpGrouped(st: LexState, d: Doubles)
    requires Good(st, d) && Started(st) && ParenFree(st.raw)
    ensures var r := Mulexp(st, d);
            r.Success? ==> Grouped(r.value.tree) && Binds(r.value.tree, 2) && Started(r.value.rest)
  {
    var first := Exponentexp(st, d);
    if first.Success? {
      ExponentexpGrouped(st, d);
      MulexpLoopGrouped(first.value.tree, first.value.rest, d);
      assert Mulexp(st, d) == MulexpLoop(first.value.tree, first.value.rest, d);
    }
  }

  /** The `*`/`/` loop folds from the left onto an accumulator of level 2. */
  lemma MulexpLoopGrouped(acc: TreeNode, st: LexState, d: Doubles)
    requires Good(st, d) && Started(st) && ParenFree(st.raw) && Full(acc, d.toString)
    requires Grouped(acc) && Binds(acc, 2)
    ensures var r := MulexpLoop(acc, st, d);
            r.Success? ==> Grouped(r.value.tree) && Binds(r.value.tree, 2) && Started(r.value.rest)
    decreases Measure(st)
  {
    var r := MulexpLoop(acc, st, d);
    if r.Success? && (st.tok == '*' as int || st.tok == '/' as int) {
      MulexpLoopUnroll(acc, st, d);
      var op, m := [st.tok as char], Matched(st, st.tok, d).value;
      var p := Exponentexp(m, d).value;
      ExponentexpGrouped(m, d);
      OperatorLevel(st.tok);
      FoldGrouped(op, acc, p.tree, 2);
      MulexpLoopGrouped(Node(op, acc, p.tree), p.rest, d);
    }
  }

  /** `parseExponentexp()` gives a number or a tree of `^` nodes over
      numbers. */
  lemma ExponentexpGrouped(st: LexState, d: Doubles)
    requires Good(st, d) && Started(st) && ParenFree(st.raw)
    ensures var r := Exponentexp(st, d);
            r.Success? ==> Grouped(r.value.tree) && Binds(r.value.tree, 3) && Started(r.value.rest)
  {
    var first := Rootexp(st, d);
    if first.Success? {
      RootexpGrouped(st, d);
      ExponentexpLoopGrouped(0, first.value.tree, first.value.rest, d);
      assert Exponentexp(st, d) == ExponentexpLoop(0, first.value.tree, first.value.rest, d);
    }
  }

  /** The `^` loop, swaps and rotations included, keeps a tree of `^` nodes
      over numbers. */
  lemma ExponentexpLoopGrouped(i: nat, acc: TreeNode, st: LexState, d: Doubles)
    requires Good(st, d) && Started(st) && ParenFree(st.raw) && Full(acc, d.toString)
    requires i > 0 ==> IsCaretNode(acc)
    requires Grouped(acc) && Binds(acc, 3)
    ensures var r := ExponentexpLoop(i, acc, st, d);
            r.Success? ==> Grouped(r.value.tree) && Binds(r.value.tree, 3) && Started(r.value.rest)
    decreases Measure(st)
  {
    var r := ExponentexpLoop(i, acc, st, d);
    if r.Success? && st.tok == '^' as int {
      ExponentexpLoopUnroll(i, acc, st, d);
      var p := Rootexp(Matched(st, '^' as int, d).value, d).value;
      RootexpGrouped(Matched(st, '^' as int, d).value, d);
      var next := Repair(i, Node("^", acc, p.tree), p.rest.end);
      RepairGrouped(i, acc, p.tree, p.rest.end);
      ExponentexpLoopGrouped(next.0, next.1, p.rest, d);
    }
  }

  /** On an input without parentheses, the tree the constructor keeps is
      grouped by level. */
  lemma ParseGrouped(s: string, d: Doubles)
    requires ParenFree(Split(s))
    ensures var rep := Parse(s, d);
            rep.ast.Some? ==> Grouped(rep.ast.value)
  {
    var st0 := Tokenized(s);
    assert Good(st0, d);
    var first := Step(st0, d);
    if first.Success? {
      StepLands(st0, d);
      ExpressionGrouped(first.value, d);
      if Expression(first.value, d).Success? {
        assert Parse(s, d).ast == Some(Expression(first.value, d).value.tree);
      }
    }
  }
}
