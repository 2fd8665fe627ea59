/** Facts about the parser of CalcParser.java that relate several of its
    functions: the `^` repair of `parseExponentexp()` against a plain
    left-to-right fold. */
module ParserFacts {
  import opened Wrappers
  import opened Trees
  import opened Lexer
  import opened Parser

  /** The loop of `parseExponentexp()` without the repair of
      CalcParser.java:139-146: every `^` operand is put on top of `acc`, so
      the result is a left-leaning chain. */
  function NaiveLoop(acc: TreeNode, st: LexState, d: Doubles): (r: Result<Parsed, string>)
    requires Good(st, d)
    ensures r.Success? ==> Good(r.value.rest, d) && Measure(r.value.rest) <= Measure(st)
    ensures r.Success? ==> LeftSpine(r.value.tree, acc, {"^"})
    decreases Measure(st)
  {
    if st.tok == '^' as int then
      var st1 :- Matched(st, '^' as int, d);
      var right :- Rootexp(st1, d);
      var r := NaiveLoop(Node("^", acc, right.tree), right.rest, d);
      if r.Success? then LeftSpineGrow(r.value.tree, acc, "^", right.tree, {"^"}); r else r
    else
      Success(Parsed(acc, st))
  }

  /** `parseExponentexp()` without the repair. */
  function NaiveExponentexp(st: LexState, d: Doubles): (r: Result<Parsed, string>)
    requires Good(st, d)
  {
    var first :- Rootexp(st, d);
    NaiveLoop(first.tree, first.rest, d)
  }

  /** Two results that agree on success, error, where the lexer stops, the
      operands of the top `^` chain and the number of `^` nodes. */
  predicate SameUpToCarets(r: Result<Parsed, string>, n: Result<Parsed, string>)
  {
    && r.Success? == n.Success?
    && (r.Failure? ==> r.error == n.error)
    && (r.Success? ==> r.value.rest == n.value.rest
                       && Operands(r.value.tree) == Operands(n.value.tree)
                       && Carets(r.value.tree) == Carets(n.value.tree))
  }

  /** The repaired loop consumes exactly the tokens of the plain fold, fails
      exactly when it does, and only rearranges the same operands under the
      same number of `^` nodes. */
  lemma {:induction false} RepairPermutesOperands(i: nat, acc: TreeNode, acc': TreeNode, st: LexState, d: Doubles)
    requires Good(st, d) && Full(acc, d.toString)
    requires i > 0 ==> IsCaretNode(acc)
    requires Operands(acc) == Operands(acc') && Carets(acc) == Carets(acc')
    ensures SameUpToCarets(ExponentexpLoop(i, acc, st, d), NaiveLoop(acc', st, d))
    decreases Measure(st)
  {
    if st.tok == '^' as int {
      var m := Matched(st, '^' as int, d);
      if m.Success? {
        var right := Rootexp(m.value, d);
        if right.Success? {
          var p := right.value;
          var node := Node("^", acc, p.tree);
          var node' := Node("^", acc', p.tree);
          var next := Repair(i, node, p.rest.end);
          assert Operands(node) == Operands(acc) + Operands(p.tree);
          assert Operands(node') == Operands(acc') + Operands(p.tree);
          RepairPermutesOperands(next.0, next.1, node', p.rest, d);
          assert ExponentexpLoop(i, acc, st, d) == ExponentexpLoop(next.0, next.1, p.rest, d);
          assert NaiveLoop(acc', st, d) == NaiveLoop(node', p.rest, d);
        }
      }
    }
  }

  /** `parseExponentexp()` and its unrepaired version read the same tokens
      and build trees over the same operands. */
  lemma ExponentexpPermutesNaive(st: LexState, d: Doubles)
    requires Good(st, d)
    ensures SameUpToCarets(Exponentexp(st, d), NaiveExponentexp(st, d))
  {
    var first := Rootexp(st, d);
    if first.Success? {
      RepairPermutesOperands(0, first.value.tree, first.value.tree, first.value.rest, d);
    }
  }
}
