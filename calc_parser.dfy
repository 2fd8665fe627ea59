/** The recursive-descent parser of CalcParser.java over the tokens of a
    `CalcLexer`, following the grammar

      expression  ::= addexp { '#' addexp }
      addexp      ::= mulexp { ('+' | '-') mulexp }
      mulexp      ::= exponentexp { ('*' | '/') exponentexp }
      exponentexp ::= rootexp { '^' rootexp }
      rootexp     ::= '(' expression ')' | number

    with one token of lookahead. Each `parseX` routine is specified by a
    function on `LexState` values (`Expression`, `AddExp`, ...); the class
    `CalcParser` holds the lexer and the result, and its methods are proved
    to compute what those functions say. An exception (`CalcError`) is a
    `Failure` carrying its message. */
module Parser {
  import opened Wrappers
  import opened Trees
  import opened Lexer

  const UnexpectedText: string := "Unexpected text after the expression."
  const ExpectedNumber: string := "Parse error: Expected a number."
  const ExpectedOperand: string := "Parse Error: Expected a number or a parenthesis."

  /** The tokens `match` is called with: the two markers and characters. */
  predicate IsExpected(t: int)
  {
    t == EolnToken || t == NumberToken || IsCharCode(t)
  }

  /** The message of `match(t)` when the current token is not `t`
      (CalcParser.java:55-63). */
  function MatchError(t: int): (m: string)
    requires IsExpected(t)
    ensures m == UnexpectedText <==> t == EolnToken
    ensures m == ExpectedNumber <==> t == NumberToken
    ensures t >= 0 ==> |m| >= 2 && m[|m| - 2] == t as char && m[|m| - 1] == '.'
  {
    if t == EolnToken then UnexpectedText
    else if t == NumberToken then ExpectedNumber
    else "Parse error: Expected a " + [t as char] + "."
  }

  /** The messages a parse below the top level can fail with: the lexer's,
      the one of `parseRootexp`, and a missing closing parenthesis. */
  predicate IsParseError(e: string)
  {
    e == IllegalNumber || e == ExpectedOperand || e == MatchError(')' as int)
  }

  /** A subtree and the lexer state after it. */
  datatype Parsed = Parsed(tree: TreeNode, rest: LexState)

  /** `p` is a sound result of parsing from `st`: the lexer is still good on
      the same raw tokens, at least one token has been consumed, and the
      tree is full. */
  ghost predicate Consumed(st: LexState, p: Parsed, d: Doubles)
    requires st.cursor <= |st.raw|
  {
    && Good(p.rest, d) && p.rest.raw == st.raw
    && Measure(p.rest) < Measure(st) && Full(p.tree, d.toString)
  }

  /** Like `Consumed`, but possibly without consuming a token, as the loops
      of the `parseX` routines return. */
  ghost predicate Resumed(st: LexState, p: Parsed, d: Doubles)
    requires st.cursor <= |st.raw|
  {
    && Good(p.rest, d) && p.rest.raw == st.raw
    && Measure(p.rest) <= Measure(st) && Full(p.tree, d.toString)
  }

  /** `match(t)` (CalcParser.java:50-66): when the current token is `t`, one
      `advance()`; otherwise the message for the kind of `t`. */
  function Matched(st: LexState, t: int, d: Doubles): (r: Result<LexState, string>)
    requires Good(st, d) && IsExpected(t)
    ensures r.Success? ==> st.tok == t && Step(st, d) == r
    ensures r.Success? ==> Good(r.value, d) && r.value.raw == st.raw
    ensures r.Success? && t != EolnToken ==> Measure(r.value) < Measure(st)
    ensures r.Failure? ==> r.error == (if st.tok == t then IllegalNumber else MatchError(t))
  {
    if st.tok != t then Failure(MatchError(t)) else Step(st, d)
  }

  /** `parseExpression()` (CalcParser.java:73-82). */
  function Expression(st: LexState, d: Doubles): (r: Result<Parsed, string>)
    requires Good(st, d)
    ensures r.Success? ==> Consumed(st, r.value, d)
    ensures r.Success? ==> r.value.rest.tok != '#' as int
    ensures r.Failure? ==> IsParseError(r.error)
    decreases Measure(st), 9
  {
    var first :- AddExp(st, d);
    ExpressionLoop(first.tree, first.rest, d)
  }

  /** The loop of `parseExpression()`: `#` operands folded from the left
      onto `acc` until the current token is not `#`. */
  function ExpressionLoop(acc: TreeNode, st: LexState, d: Doubles): (r: Result<Parsed, string>)
    requires Good(st, d) && Full(acc, d.toString)
    ensures r.Success? ==> Resumed(st, r.value, d) && LeftSpine(r.value.tree, acc, {"#"})
    ensures r.Success? ==> r.value.rest.tok != '#' as int
    ensures st.tok != '#' as int ==> r == Success(Parsed(acc, st))
    ensures r.Failure? ==> IsParseError(r.error)
    decreases Measure(st), 8
  {
    if st.tok == '#' as int then
      var st1 :- Matched(st, '#' as int, d);
      var right :- AddExp(st1, d);
      var r := ExpressionLoop(Node("#", acc, right.tree), right.rest, d);
      if r.Success? then LeftSpineGrow(r.value.tree, acc, "#", right.tree, {"#"}); r else r
    else
      Success(Parsed(acc, st))
  }

  /** One round of the `#` loop, as the loop of `parseExpression()` runs it. */
  lemma ExpressionRound(acc: TreeNode, st: LexState, d: Doubles)
    requires Good(st, d) && Full(acc, d.toString) && st.tok == '#' as int
    ensures var m := Matched(st, '#' as int, d);
            ExpressionLoop(acc, st, d)
            == if m.Failure? then Failure(m.error)
               else
                 var right := AddExp(m.value, d);
                 if right.Failure? then Failure(right.error)
                 else ExpressionLoop(Node("#", acc, right.value.tree), right.value.rest, d)
  {
  }

  /** `parseAddExp()` (CalcParser.java:91-102). */
  function AddExp(st: LexState, d: Doubles): (r: Result<Parsed, string>)
    requires Good(st, d)
    ensures r.Success? ==> Consumed(st, r.value, d)
    ensures r.Success? ==> r.value.rest.tok != '+' as int && r.value.rest.tok != '-' as int
    ensures r.Failure? ==> IsParseError(r.error)
    decreases Measure(st), 7
  {
    var first :- Mulexp(st, d);
    AddExpLoop(first.tree, first.rest, d)
  }

  /** The loop of `parseAddExp()`: `+` and `-` operands folded from the
      left onto `acc`. */
  function AddExpLoop(acc: TreeNode, st: LexState, d: Doubles): (r: Result<Parsed, string>)
    requires Good(st, d) && Full(acc, d.toString)
    ensures r.Success? ==> Resumed(st, r.value, d) && LeftSpine(r.value.tree, acc, {"+", "-"})
    ensures r.Success? ==> r.value.rest.tok != '+' as int && r.value.rest.tok != '-' as int
    ensures st.tok != '+' as int && st.tok != '-' as int ==> r == Success(Parsed(acc, st))
    ensures r.Failure? ==> IsParseError(r.error)
    decreases Measure(st), 6
  {
    if st.tok == '+' as int then
      var st1 :- Matched(st, '+' as int, d);
      var right :- Mulexp(st1, d);
      var r := AddExpLoop(Node("+", acc, right.tree), right.rest, d);
      if r.Success? then LeftSpineGrow(r.value.tree, acc, "+", right.tree, {"+", "-"}); r else r
    else if st.tok == '-' as int then
      var st1 :- Matched(st, '-' as int, d);
      var right :- Mulexp(st1, d);
      var r := AddExpLoop(Node("-", acc, right.tree), right.rest, d);
      if r.Success? then LeftSpineGrow(r.value.tree, acc, "-", right.tree, {"+", "-"}); r else r
    else
      Success(Parsed(acc, st))
  }

  /** One round of the `+`/`-` loop, as the loop of `parseAddExp()` runs it. */
  lemma AddExpRound(acc: TreeNode, st: LexState, d: Doubles)
    requires Good(st, d) && Full(acc, d.toString) && (st.tok == '+' as int || st.tok == '-' as int)
    ensures var m := Matched(st, st.tok, d);
            AddExpLoop(acc, st, d)
            == if m.Failure? then Failure(m.error)
               else
                 var right := Mulexp(m.value, d);
                 if right.Failure? then Failure(right.error)
                 else AddExpLoop(Node([st.tok as char], acc, right.value.tree), right.value.rest, d)
  {
  }

  /** `parseMulexp()` (CalcParser.java:111-124). */
  function Mulexp(st: LexState, d: Doubles): (r: Result<Parsed, string>)
    requires Good(st, d)
    ensures r.Success? ==> Consumed(st, r.value, d)
    ensures r.Success? ==> r.value.rest.tok != '*' as int && r.value.rest.tok != '/' as int
    ensures r.Failure? ==> IsParseError(r.error)
    decreases Measure(st), 5
  {
    var first :- Exponentexp(st, d);
    MulexpLoop(first.tree, first.rest, d)
  }

  /** The loop of `parseMulexp()`: `*` and `/` operands folded from the
      left onto `acc`. */
  function MulexpLoop(acc: TreeNode, st: LexState, d: Doubles): (r: Result<Parsed, string>)
    requires Good(st, d) && Full(acc, d.toString)
    ensures r.Success? ==> Resumed(st, r.value, d) && LeftSpine(r.value.tree, acc, {"*", "/"})
    ensures r.Success? ==> r.value.rest.tok != '*' as int && r.value.rest.tok != '/' as int
    ensures st.tok != '*' as int && st.tok != '/' as int ==> r == Success(Parsed(acc, st))
    ensures r.Failure? ==> IsParseError(r.error)
    decreases Measure(st), 4
  {
    if st.tok == '*' as int then
      var st1 :- Matched(st, '*' as int, d);
      var right :- Exponentexp(st1, d);
      var r := MulexpLoop(Node("*", acc, right.tree), right.rest, d);
      if r.Success? then LeftSpineGrow(r.value.tree, acc, "*", right.tree, {"*", "/"}); r else r
    else if st.tok == '/' as int then
      var st1 :- Matched(st, '/' as int, d);
      var right :- Exponentexp(st1, d);
      var r := MulexpLoop(Node("/", acc, right.tree), right.rest, d);
      if r.Success? then LeftSpineGrow(r.value.tree, acc, "/", right.tree, {"*", "/"}); r else r
    else
      Success(Parsed(acc, st))
  }

  /** One round of the `*`/`/` loop, as the loop of `parseMulexp()` runs it. */
  lemma MulexpRound(acc: TreeNode, st: LexState, d: Doubles)
    requires Good(st, d) && Full(acc, d.toString) && (st.tok == '*' as int || st.tok == '/' as int)
    ensures var m := Matched(st, st.tok, d);
            MulexpLoop(acc, st, d)
            == if m.Failure? then Failure(m.error)
               else
                 var right := Exponentexp(m.value, d);
                 if right.Failure? then Failure(right.error)
                 else MulexpLoop(Node([st.tok as char], acc, right.value.tree), right.value.rest, d)
  {
  }

  /** The first repair of `parseExponentexp()` (CalcParser.java:142): the
      two children of the new `^` node change places. */
  function Swap(t: TreeNode): (s: TreeNode)
    requires IsCaretNode(t)
    ensures IsCaretNode(s) && s.left == t.right && s.right == t.left
    ensures Operands(s) == Operands(t) && Carets(s) == Carets(t)
  {
    TreeNode(t.symbol, t.right, t.left)
  }

  /** The later repairs of `parseExponentexp()` (CalcParser.java:144): the
      tree `^(^(a, b), c)` becomes `^(b, ^(a, c))`. */
  function Rotate(t: TreeNode): (s: TreeNode)
    requires IsCaretNode(t) && IsCaretNode(t.left.value)
    ensures IsCaretNode(s) && IsCaretNode(s.right.value)
    ensures s.left == t.left.value.right
    ensures s.right.value.left == t.left.value.left && s.right.value.right == t.right
    ensures Operands(s) == Operands(t) && Carets(s) == Carets(t)
  {
    TreeNode(t.symbol, t.left.value.right, Some(TreeNode(t.symbol, t.left.value.left, t.right)))
  }

  /** The check after each `^` operand in `parseExponentexp()`
      (CalcParser.java:139-146): when `endCheckExponent` is set, the counter
      goes up and the new `^` node `result` is swapped (counter now 1) or
      rotated (counter now above 1); otherwise nothing changes. Either way
      the node stays a `^` node over the same operands. */
  function Repair(i: nat, result: TreeNode, endCheck: bool): (r: (nat, TreeNode))
    requires IsCaretNode(result) && (i > 0 ==> IsCaretNode(result.left.value))
    ensures r.0 == (if endCheck then i + 1 else i)
    ensures IsCaretNode(r.1)
    ensures Operands(r.1) == Operands(result) && Carets(r.1) == Carets(result)
    ensures forall show :: Full(result, show) ==> Full(r.1, show)
  {
    if endCheck then
      if i + 1 == 1 then (i + 1, Swap(result)) else (i + 1, Rotate(result))
    else
      (i, result)
  }

  /** `parseExponentexp()` (CalcParser.java:133-150). */
  function Exponentexp(st: LexState, d: Doubles): (r: Result<Parsed, string>)
    requires Good(st, d)
    ensures r.Success? ==> Consumed(st, r.value, d)
    ensures r.Success? ==> r.value.rest.tok != '^' as int
    ensures r.Failure? ==> IsParseError(r.error)
    decreases Measure(st), 3
  {
    var first :- Rootexp(st, d);
    ExponentexpLoop(0, first.tree, first.rest, d)
  }

  /** The loop of `parseExponentexp()` with its counter `i`: each `^`
      operand is put on top of `acc`; when the lexer's `endCheckExponent`
      is then set, the new node is swapped (first time) or rotated (later
      times). Once `i` is positive, `acc` is a `^` node, so the rotation
      never reaches an absent child. */
  function ExponentexpLoop(i: nat, acc: TreeNode, st: LexState, d: Doubles): (r: Result<Parsed, string>)
    requires Good(st, d) && Full(acc, d.toString)
    requires i > 0 ==> IsCaretNode(acc)
    ensures r.Success? ==> Resumed(st, r.value, d)
    ensures r.Success? ==> r.value.rest.tok != '^' as int
    ensures st.tok != '^' as int ==> r == Success(Parsed(acc, st))
    ensures r.Failure? ==> IsParseError(r.error)
    decreases Measure(st), 2
  {
    if st.tok == '^' as int then
      var st1 :- Matched(st, '^' as int, d);
      var right :- Rootexp(st1, d);
      var next := Repair(i, Node("^", acc, right.tree), right.rest.end);
      ExponentexpLoop(next.0, next.1, right.rest, d)
    else
      Success(Parsed(acc, st))
  }

  /** One round of the `^` loop, as the loop of `parseExponentexp()` runs it. */
  lemma ExponentexpRound(i: nat, acc: TreeNode, st: LexState, d: Doubles)
    requires Good(st, d) && Full(acc, d.toString) && (i > 0 ==> IsCaretNode(acc)) && st.tok == '^' as int
    ensures var m := Matched(st, '^' as int, d);
            ExponentexpLoop(i, acc, st, d)
            == if m.Failure? then Failure(m.error)
               else
                 var right := Rootexp(m.value, d);
                 if right.Failure? then Failure(right.error)
                 else
                   var next := Repair(i, Node("^", acc, right.value.tree), right.value.rest.end);
                   ExponentexpLoop(next.0, next.1, right.value.rest, d)
  {
  }

  /** `parseRootexp()` (CalcParser.java:159-171): a parenthesized expression
      or a number, whose leaf is what `Double.toString` prints for it. */
  function Rootexp(st: LexState, d: Doubles): (r: Result<Parsed, string>)
    requires Good(st, d)
    ensures r.Success? ==> Consumed(st, r.value, d)
    ensures r.Success? && st.tok == NumberToken ==> r.value.tree == Leaf(d.toString(st.num))
    ensures st.tok != '(' as int && st.tok != NumberToken ==> r == Failure(ExpectedOperand)
    ensures r.Failure? ==> IsParseError(r.error)
    decreases Measure(st), 1
  {
    if st.tok == '(' as int then
      var st1 :- Matched(st, '(' as int, d);
      var inner :- Expression(st1, d);
      var st2 :- Matched(inner.rest, ')' as int, d);
      Success(Parsed(inner.tree, st2))
    else if st.tok == NumberToken then
      var leaf := Leaf(d.toString(st.num));
      var st1 :- Matched(st, NumberToken, d);
      LeafIsFull(st.num, d.toString);
      Success(Parsed(leaf, st1))
    else
      Failure(ExpectedOperand)
  }

  /** What a constructed `CalcParser` holds: `ast` and the message the
      constructor printed, if any. */
  datatype ParseReport = ParseReport(ast: Option<TreeNode>, message: Option<string>)

  /** The constructor `CalcParser(s)` (CalcParser.java:21-36): lex the first
      token, then go on as `ParseFrom` says. A failure anywhere is caught and
      its message printed. */
  function Parse(s: string, d: Doubles): (rep: ParseReport)
    ensures rep.ast.Some? ==> Full(rep.ast.value, d.toString)
    ensures rep.message.None? ==> rep.ast.Some?
    ensures rep.ast.Some? && rep.message.Some? ==> rep.message.value == UnexpectedText
    ensures rep.ast.None? ==> rep.message.Some? && IsParseError(rep.message.value)
  {
    match Step(Tokenized(s), d)
    case Failure(e) => ParseReport(None, Some(e))
    case Success(st) => ParseFrom(st, d)
  }

  /** The constructor once the lexer stands at its first token `st`
      (CalcParser.java:29-35): parse an expression, store it, then require
      the end of input. `ast` is set as soon as the expression has been
      parsed, so trailing text leaves the tree in place. */
  function ParseFrom(st: LexState, d: Doubles): (rep: ParseReport)
    requires Good(st, d)
    ensures rep.ast.Some? ==> Full(rep.ast.value, d.toString)
    ensures rep.message.None? ==> rep.ast.Some?
    ensures rep.ast.Some? && rep.message.Some? ==> rep.message.value == UnexpectedText
    ensures rep.ast.None? ==> rep.message.Some? && IsParseError(rep.message.value)
  {
    match Expression(st, d)
    case Failure(e) => ParseReport(None, Some(e))
    case Success(p) =>
      match Matched(p.rest, EolnToken, d)
      case Failure(e) => ParseReport(Some(p.tree), Some(e))
      case Success(_) => ParseReport(Some(p.tree), None)
  }

  /** The parser object. `message` stands for the line the constructor
      prints when it catches a `CalcError`. */
  class CalcParser {
    const doubles: Doubles
    const lexer: CalcLexer?
    var ast: Option<TreeNode>
    var message: Option<string>

    /** The result fields as a `ParseReport`. */
    function Report(): ParseReport
      reads this
    {
      ParseReport(ast, message)
    }

    /** A stored tree is full. */
    ghost predicate Valid()
      reads this
    {
      ast.Some? ==> Full(ast.value, doubles.toString)
    }

    constructor (s: string, doubles: Doubles)
      ensures this.doubles == doubles && Report() == Parse(s, doubles) && Valid()
    {
      var created := CalcLexer.Create(s, doubles);
      this.doubles := doubles;
      lexer := if created.Success? then created.value else null;
      ast := None;
      message := if created.Failure? then Some(created.error) else None;
      new;
      if created.Success? {
        ParseInput();
      }
    }

    /** The part of the constructor's `try` block after the lexer is built
        (CalcParser.java:29-35). */
    method ParseInput()
      requires lexer != null && lexer.Valid() && ast.None? && message.None?
      modifies this`ast, this`message, lexer
      ensures Report() == ParseFrom(old(lexer.State()), lexer.doubles)
    {
      var tree := ParseExpression();
      if tree.Failure? {
        message := Some(tree.error);
        return;
      }
      ast := Some(tree.value);
      var end := Match(EolnToken);
      if end.Fail? {
        message := Some(end.error);
      }
    }

    /** `getAST()` (CalcParser.java:38-40). */
    function GetAST(): (a: Option<TreeNode>)
      reads this
      requires Valid()
      ensures a.Some? ==> Full(a.value, doubles.toString)
    {
      ast
    }

    /** `match(t)` (CalcParser.java:50-66). */
    method Match(t: int) returns (o: Outcome<string>)
      requires lexer != null && lexer.Valid() && IsExpected(t)
      modifies lexer
      ensures o.Pass? ==> lexer.Valid() && Matched(old(lexer.State()), t, lexer.doubles) == Success(lexer.State())
      ensures o.Pass? && t != EolnToken ==> lexer.Remaining() < old(lexer.Remaining())
      ensures o.Fail? ==> Matched(old(lexer.State()), t, lexer.doubles) == Failure(o.error)
    {
      if lexer.NextToken() != t {
        return Fail(MatchError(t));
      }
      o := lexer.Advance();
    }

    /** `parseExpression()` (CalcParser.java:73-82). */
    method ParseExpression() returns (r: Result<TreeNode, string>)
      requires lexer != null && lexer.Valid()
      modifies lexer
      ensures r.Success? ==> lexer.Valid()
      ensures r.Success? ==> Expression(old(lexer.State()), lexer.doubles) == Success(Parsed(r.value, lexer.State()))
      ensures r.Success? ==> Full(r.value, lexer.doubles.toString) && lexer.Remaining() < old(lexer.Remaining())
      ensures r.Failure? ==> Expression(old(lexer.State()), lexer.doubles) == Failure(r.error)
      decreases lexer.Remaining(), 9
    {
      ghost var st0 := lexer.State();
      var result :- ParseAddExp();
      while true
        invariant lexer.Valid() && Full(result, lexer.doubles.toString)
        invariant lexer.Remaining() < Measure(st0)
        invariant ExpressionLoop(result, lexer.State(), lexer.doubles) == Expression(st0, lexer.doubles)
        decreases lexer.Remaining()
      {
        if lexer.NextToken() == '#' as int {
          ExpressionRound(result, lexer.State(), lexer.doubles);
          :- Match('#' as int);
          var right :- ParseAddExp();
          result := Node("#", result, right);
        } else {
          return Success(result);
        }
      }
    }

    /** `parseAddExp()` (CalcParser.java:91-102). */
    method ParseAddExp() returns (r: Result<TreeNode, string>)
      requires lexer != null && lexer.Valid()
      modifies lexer
      ensures r.Success? ==> lexer.Valid()
      ensures r.Success? ==> AddExp(old(lexer.State()), lexer.doubles) == Success(Parsed(r.value, lexer.State()))
      ensures r.Success? ==> Full(r.value, lexer.doubles.toString) && lexer.Remaining() < old(lexer.Remaining())
      ensures r.Failure? ==> AddExp(old(lexer.State()), lexer.doubles) == Failure(r.error)
      decreases lexer.Remaining(), 7
    {
      ghost var st0 := lexer.State();
      var result :- ParseMulexp();
      while true
        invariant lexer.Valid() && Full(result, lexer.doubles.toString)
        invariant lexer.Remaining() < Measure(st0)
        invariant AddExpLoop(result, lexer.State(), lexer.doubles) == AddExp(st0, lexer.doubles)
        decreases lexer.Remaining()
      {
        if lexer.NextToken() == '+' as int {
          AddExpRound(result, lexer.State(), lexer.doubles);
          :- Match('+' as int);
          var right :- ParseMulexp();
          result := Node("+", result, right);
        } else if lexer.NextToken() == '-' as int {
          AddExpRound(result, lexer.State(), lexer.doubles);
          :- Match('-' as int);
          var right :- ParseMulexp();
          result := Node("-", result, right);
        } else {
          return Success(result);
        }
      }
    }

    /** `parseMulexp()` (CalcParser.java:111-124). */
    method ParseMulexp() returns (r: Result<TreeNode, string>)
      requires lexer != null && lexer.Valid()
      modifies lexer
      ensures r.Success? ==> lexer.Valid()
      ensures r.Success? ==> Mulexp(old(lexer.State()), lexer.doubles) == Success(Parsed(r.value, lexer.State()))
      ensures r.Success? ==> Full(r.value, lexer.doubles.toString) && lexer.Remaining() < old(lexer.Remaining())
      ensures r.Failure? ==> Mulexp(old(lexer.State()), lexer.doubles) == Failure(r.error)
      decreases lexer.Remaining(), 5
    {
      ghost var st0 := lexer.State();
      var result :- ParseExponentexp();
      while true
        invariant lexer.Valid() && Full(result, lexer.doubles.toString)
        invariant lexer.Remaining() < Measure(st0)
        invariant MulexpLoop(result, lexer.State(), lexer.doubles) == Mulexp(st0, lexer.doubles)
        decreases lexer.Remaining()
      {
        if lexer.NextToken() == '*' as int {
          MulexpRound(result, lexer.State(), lexer.doubles);
          :- Match('*' as int);
          var right :- ParseExponentexp();
          result := Node("*", result, right);
        } else if lexer.NextToken() == '/' as int {
          MulexpRound(result, lexer.State(), lexer.doubles);
          :- Match('/' as int);
          var right :- ParseExponentexp();
          result := Node("/", result, right);
        } else {
          return Success(result);
        }
      }
    }

    /** `parseExponentexp()` (CalcParser.java:133-150). */
    method ParseExponentexp() returns (r: Result<TreeNode, string>)
      requires lexer != null && lexer.Valid()
      modifies lexer
      ensures r.Success? ==> lexer.Valid()
      ensures r.Success? ==> Exponentexp(old(lexer.State()), lexer.doubles) == Success(Parsed(r.value, lexer.State()))
      ensures r.Success? ==> Full(r.value, lexer.doubles.toString) && lexer.Remaining() < old(lexer.Remaining())
      ensures r.Failure? ==> Exponentexp(old(lexer.State()), lexer.doubles) == Failure(r.error)
      decreases lexer.Remaining(), 3
    {
      ghost var st0 := lexer.State();
      var result :- ParseRootexp();
      var i: nat := 0;
      while true
        invariant lexer.Valid() && Full(result, lexer.doubles.toString)
        invariant i > 0 ==> IsCaretNode(result)
        invariant lexer.Remaining() < Measure(st0)
        invariant ExponentexpLoop(i, result, lexer.State(), lexer.doubles) == Exponentexp(st0, lexer.doubles)
        decreases lexer.Remaining()
      {
        if lexer.NextToken() == '^' as int {
          ExponentexpRound(i, result, lexer.State(), lexer.doubles);
          :- Match('^' as int);
          var right :- ParseRootexp();
          var next := Repair(i, Node("^", result, right), lexer.IsEndCheckExponent());
          i, result := next.0, next.1;
        } else {
          return Success(result);
        }
      }
    }

    /** `parseRootexp()` (CalcParser.java:159-171). */
    method ParseRootexp() returns (r: Result<TreeNode, string>)
      requires lexer != null && lexer.Valid()
      modifies lexer
      ensures r.Success? ==> lexer.Valid()
      ensures r.Success? ==> Rootexp(old(lexer.State()), lexer.doubles) == Success(Parsed(r.value, lexer.State()))
      ensures r.Success? ==> Full(r.value, lexer.doubles.toString) && lexer.Remaining() < old(lexer.Remaining())
      ensures r.Failure? ==> Rootexp(old(lexer.State()), lexer.doubles) == Failure(r.error)
      decreases lexer.Remaining(), 1
    {
      if lexer.NextToken() == '(' as int {
        :- Match('(' as int);
        var inner :- ParseExpression();
        :- Match(')' as int);
        return Success(inner);
      } else if lexer.NextToken() == NumberToken {
        var leaf := Leaf(lexer.doubles.toString(lexer.GetNum()));
        :- Match(NumberToken);
        return Success(leaf);
      } else {
        return Failure(ExpectedOperand);
      }
    }
  }
}
