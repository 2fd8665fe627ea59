/** The operands and operators of a parse tree appear in the order the
    input gives them. The in-order reading of the tree built by each
    `parseX` routine of CalcParser.java is the text of the raw tokens it
    consumed: number tokens as `Double.toString` prints their value, symbol
    tokens as themselves, parentheses and white space dropped. This is the
    left-to-right order of the operands promised by the grammar comments
    at CalcParser.java:74, 92, 112 and 134.

    The `^` repair of CalcParser.java:139-146 rearranges the operands of a
    `^` chain (for `2^3^2^2` it moves the leading `2`), so the order is
    proved for inputs in which the repair never fires: those in which no
    `^` among the operator and parenthesis tokens is followed directly by
    another `^` (no chain `a^b^c`). */
module ParserYield {
  import opened Wrappers
  import opened Trees
  import opened Lexer
  import opened Parser
  import opened ParserFacts

  // ---------------------------------------------------------------------------
  // The text of raw tokens

  /** What one raw token adds to the reading of the input. */
  function Piece(t: string, d: Doubles): (p: seq<string>)
    requires |t| > 0
    ensures |p| <= 1
    ensures IsWhitespace(t[0]) ==> p == []
  {
    if IsWhitespace(t[0]) then []
    else if IsNumberLike(t) then
      match d.valueOf(t)
      case Some(v) => [d.toString(v)]
      case None => []
    else if t == "(" || t == ")" then []
    else [t]
  }

  /** The reading of the raw tokens `raw[i..j]`. */
  function Text(raw: seq<string>, i: nat, j: nat, d: Doubles): (x: seq<string>)
    requires i <= j <= |raw| && NonEmpty(raw)
    decreases j
  {
    if i == j then [] else Text(raw, i, j - 1, d) + Piece(raw[j - 1], d)
  }

  lemma {:induction false} TextSplit(raw: seq<string>, i: nat, j: nat, k: nat, d: Doubles)
    requires i <= j <= k <= |raw| && NonEmpty(raw)
    ensures Text(raw, i, k, d) == Text(raw, i, j, d) + Text(raw, j, k, d)
    decreases k
  {
    if j < k {
      TextSplit(raw, i, j, k - 1, d);
    }
  }

  /** Raw tokens that begin with white space read as nothing. */
  lemma {:induction false} TextSkip(raw: seq<string>, i: nat, k: nat, d: Doubles)
    requires i <= k <= |raw| && NonEmpty(raw)
    requires forall j :: i <= j < k ==> IsWhitespace(raw[j][0])
    ensures Text(raw, i, k, d) == []
    decreases k
  {
    if i < k {
      TextSkip(raw, i, k - 1, d);
    }
  }

  // ---------------------------------------------------------------------------
  // Where the current token came from

  /** A lexer that has read its first token, as every lexer the parser sees
      has: at the end, or just past a raw token that does not begin with
      white space. */
  predicate Started(st: LexState)
  {
    || st.tok == EolnToken
    || (0 < st.cursor <= |st.raw| && |st.raw[st.cursor - 1]| > 0 && !IsWhitespace(st.raw[st.cursor - 1][0]))
  }

  /** The index of the raw token the current token was read from; the end
      for `EOLN_TOKEN`. */
  function Pos(st: LexState): (p: nat)
    requires st.cursor <= |st.raw|
    ensures p <= |st.raw|
    ensures st.tok != EolnToken && st.cursor > 0 ==> p + 1 == st.cursor
  {
    if st.tok == EolnToken then |st.raw| else if st.cursor == 0 then 0 else st.cursor - 1
  }

  /** What the current token adds to the reading of the input. */
  function TokenText(st: LexState, d: Doubles): (x: seq<string>)
    requires Good(st, d)
    ensures |x| <= 1
  {
    if st.tok == NumberToken then [d.toString(st.num)]
    else if st.tok == EolnToken || st.tok == '(' as int || st.tok == ')' as int then []
    else [[st.tok as char]]
  }

  /** `advance()` lands on the first raw token that does not begin with
      white space, or on the end. */
  lemma StepLands(st: LexState, d: Doubles)
    requires Good(st, d) && Step(st, d).Success?
    ensures Started(Step(st, d).value)
    ensures Pos(Step(st, d).value) == NextSignificant(st.raw, st.cursor)
  {
    StepCases(st, d);
  }

  /** One `advance()` from a started lexer consumes exactly the text of its
      current token. */
  lemma StepText(st: LexState, d: Doubles)
    requires Good(st, d) && Started(st) && st.tok != EolnToken && Step(st, d).Success?
    ensures var next := Step(st, d).value;
            && Started(next) && Pos(st) < Pos(next)
            && Text(st.raw, Pos(st), Pos(next), d) == TokenText(st, d)
  {
    StepLands(st, d);
    TokenPiece(st, Step(st, d).value, d);
  }

  /** The raw tokens from the current token up to where `advance()` lands
      read as the current token's text. */
  lemma TokenPiece(st: LexState, next: LexState, d: Doubles)
    requires Good(st, d) && Started(st) && st.tok != EolnToken
    requires next.raw == st.raw && next.cursor <= |st.raw|
    requires Pos(next) == NextSignificant(st.raw, st.cursor)
    ensures Pos(st) < Pos(next)
    ensures Text(st.raw, Pos(st), Pos(next), d) == TokenText(st, d)
  {
    PieceOfToken(st, d);
    OnePiece(st.raw, st.cursor - 1, Pos(next), d);
  }

  /** A raw token followed only by tokens that begin with white space reads
      as that one token. */
  lemma OnePiece(raw: seq<string>, p: nat, k: nat, d: Doubles)
    requires p < k <= |raw| && NonEmpty(raw)
    requires forall j :: p + 1 <= j < k ==> IsWhitespace(raw[j][0])
    ensures Text(raw, p, k, d) == Piece(raw[p], d)
  {
    TextSkip(raw, p + 1, k, d);
    TextSplit(raw, p, p + 1, k, d);
    assert Text(raw, p, p + 1, d) == Piece(raw[p], d);
  }

  /** The raw token the current token was read from adds the token's text. */
  lemma PieceOfToken(st: LexState, d: Doubles)
    requires Good(st, d) && Started(st) && st.tok != EolnToken
    ensures Piece(st.raw[st.cursor - 1], d) == TokenText(st, d)
  {
  }

  /** A successful `match(t)` on a token other than `EOLN_TOKEN` consumes
      the text of `t`. */
  lemma MatchedText(st: LexState, t: int, d: Doubles)
    requires Good(st, d) && Started(st) && IsExpected(t) && t != EolnToken
    requires Matched(st, t, d).Success?
    ensures var next := Matched(st, t, d).value;
            && Started(next) && Pos(st) < Pos(next)
            && Text(st.raw, Pos(st), Pos(next), d) == TokenText(st, d)
  {
    StepText(st, d);
  }

  // ---------------------------------------------------------------------------
  // Inputs on which the repair never fires

  /** `h` holds `^` at `k` and at `k + 1`. */
  predicate CaretPairAt(h: seq<char>, k: nat)
    requires k + 1 < |h|
  {
    h[k] == '^' && h[k + 1] == '^'
  }

  /** No `^` of `h` is followed directly by another. */
  predicate NoCaretPair(h: seq<char>)
  {
    forall k: nat :: k + 1 < |h| ==> !CaretPairAt(h, k)
  }

  /** Among the symbol tokens of `raw` (operators and parentheses; numbers
      and white space do not count), no `^` is followed directly by another
      `^`. This excludes every chain `a^b^c` such as `2^3^2`, and allows
      `2^3*4^5` and `2^(3)^2`. */
  predicate CaretsUnpaired(raw: seq<string>)
  {
    NoCaretPair(SymbolsBefore(raw, |raw|))
  }

  /** When no `^` of the symbols read is followed directly by another,
      `endCheckExponent` is never set, and
      `startCheckExponent` only right after a `^`. */
  lemma {:induction false} FlagsUnpaired(h: seq<char>)
    requires NoCaretPair(h)
    ensures !FlagsAfter(h).1
    ensures FlagsAfter(h).0 ==> h != [] && h[|h| - 1] == '^'
    decreases |h|
  {
    if h != [] {
      var init := h[..|h| - 1];
      assert NoCaretPair(init) by {
        forall k: nat | k + 1 < |init| ensures !CaretPairAt(init, k) {
          assert !CaretPairAt(h, k);
        }
      }
      FlagsUnpaired(init);
      if |h| >= 2 {
        assert !CaretPairAt(h, |h| - 2);
        assert init[|init| - 1] == h[|h| - 2];
      } else {
        assert init == [];
      }
    }
  }

  /** The symbols read so far are a prefix of all the symbols. */
  lemma {:induction false} SymbolsPrefix(raw: seq<string>, n: nat, m: nat)
    requires n <= m <= |raw|
    ensures SymbolsBefore(raw, n) <= SymbolsBefore(raw, m)
    decreases m
  {
    if n < m {
      SymbolsPrefix(raw, n, m - 1);
    }
  }

  /** On such an input, every good lexer has `endCheckExponent` clear. */
  lemma EndNeverSet(st: LexState, d: Doubles)
    requires Good(st, d) && CaretsUnpaired(st.raw)
    ensures !st.end
  {
    var h := SymbolsBefore(st.raw, st.cursor);
    var all := SymbolsBefore(st.raw, |st.raw|);
    SymbolsPrefix(st.raw, st.cursor, |st.raw|);
    assert NoCaretPair(h) by {
      forall k: nat | k + 1 < |h| ensures !CaretPairAt(h, k) {
        assert !CaretPairAt(all, k);
      }
    }
    FlagsUnpaired(h);
  }

  // ---------------------------------------------------------------------------
  // The parse routines read their operands in order

  /** A lexer the theorems start from. */
  ghost predicate Ready(st: LexState, d: Doubles)
  {
    Good(st, d) && Started(st) && CaretsUnpaired(st.raw)
  }

  /** `p` was parsed from `st`, and its reading is `prefix` followed by the
      text of the tokens consumed. */
  ghost predicate InOrder(st: LexState, p: Parsed, prefix: seq<string>, d: Doubles)
  {
    && p.rest.raw == st.raw && st.cursor <= |st.raw| && p.rest.cursor <= |st.raw|
    && NonEmpty(st.raw) && Started(p.rest) && Pos(st) <= Pos(p.rest)
    && Yield(p.tree) == prefix + Text(st.raw, Pos(st), Pos(p.rest), d)
  }

  /** Two stretches of tokens read one after the other. */
  lemma InOrderThen(st: LexState, p: Parsed, q: Parsed, pre: seq<string>, d: Doubles)
    requires InOrder(st, p, pre, d) && InOrder(p.rest, q, Yield(p.tree), d)
    ensures InOrder(st, q, pre, d)
  {
    ThenTexts(st.raw, Pos(st), Pos(p.rest), Pos(q.rest), Yield(p.tree), Yield(q.tree), pre, d);
  }

  /** The sequence arithmetic behind `InOrderThen`, on plain positions. */
  lemma ThenTexts(raw: seq<string>, a: nat, b: nat, c: nat, y1: seq<string>, y2: seq<string>,
                  pre: seq<string>, d: Doubles)
    requires a <= b <= c <= |raw| && NonEmpty(raw)
    requires y1 == pre + Text(raw, a, b, d) && y2 == y1 + Text(raw, b, c, d)
    ensures y2 == pre + Text(raw, a, c, d)
  {
    TextSplit(raw, a, b, c, d);
  }

  /** An operator token, an operand, then the rest of a loop. */
  lemma InOrderStep(st: LexState, mid: LexState, p: Parsed, q: Parsed, op: string, acc: TreeNode, d: Doubles)
    requires mid.raw == st.raw && st.cursor <= |st.raw| && mid.cursor <= |st.raw| && NonEmpty(st.raw)
    requires Pos(st) <= Pos(mid) && Text(st.raw, Pos(st), Pos(mid), d) == [op]
    requires InOrder(mid, p, [], d)
    requires InOrder(p.rest, q, Yield(Node(op, acc, p.tree)), d)
    ensures InOrder(st, q, Yield(acc), d)
  {
    assert Yield(Node(op, acc, p.tree)) == Yield(acc) + [op] + Yield(p.tree);
    StepTexts(st.raw, Pos(st), Pos(mid), Pos(p.rest), Pos(q.rest), Yield(q.tree),
              Yield(Node(op, acc, p.tree)), Yield(acc), [op], Yield(p.tree), d);
  }

  /** The sequence arithmetic behind `InOrderStep`, on plain positions. */
  lemma StepTexts(raw: seq<string>, a: nat, b: nat, c: nat, e: nat, y: seq<string>, node: seq<string>,
                  w: seq<string>, x: seq<string>, right: seq<string>, d: Doubles)
    requires a <= b <= c <= e <= |raw| && NonEmpty(raw)
    requires Text(raw, a, b, d) == x && right == Text(raw, b, c, d)
    requires node == w + x + right && y == node + Text(raw, c, e, d)
    ensures y == w + Text(raw, a, e, d)
  {
    TextSplit(raw, b, c, e, d);
    TextSplit(raw, a, b, e, d);
    Regroup(y, node, w, x, right, Text(raw, c, e, d), Text(raw, a, e, d));
  }

  lemma Regroup(y: seq<string>, node: seq<string>, w: seq<string>, x: seq<string>,
                ta: seq<string>, tb: seq<string>, tc: seq<string>)
    requires node == w + x + ta && y == node + tb && tc == x + (ta + tb)
    ensures y == w + tc
  {
  }

  /** The binary operators of the grammar. */
  predicate IsOperatorToken(t: int)
  {
    t == '#' as int || t == '+' as int || t == '-' as int
    || t == '*' as int || t == '/' as int || t == '^' as int
  }

  /** One round of any of the operator loops: the operator, its operand `p`
      read in order, then the rest `q` of the loop. */
  lemma OperatorRound(acc: TreeNode, st: LexState, p: Parsed, q: Parsed, d: Doubles)
    requires Good(st, d) && Started(st) && IsOperatorToken(st.tok) && Matched(st, st.tok, d).Success?
    requires InOrder(Matched(st, st.tok, d).value, p, [], d)
    requires InOrder(p.rest, q, Yield(Node([st.tok as char], acc, p.tree)), d)
    ensures InOrder(st, q, Yield(acc), d)
  {
    MatchedText(st, st.tok, d);
    InOrderStep(st, Matched(st, st.tok, d).value, p, q, [st.tok as char], acc, d);
  }

  /** Tokens that read as nothing on both sides of an operand. */
  lemma InOrderWrap(st: LexState, open: LexState, p: Parsed, close: LexState, d: Doubles)
    requires open.raw == st.raw && st.cursor <= |st.raw| && open.cursor <= |st.raw| && NonEmpty(st.raw)
    requires Pos(st) <= Pos(open) && Text(st.raw, Pos(st), Pos(open), d) == []
    requires InOrder(open, p, [], d)
    requires close.raw == st.raw && close.cursor <= |st.raw| && Started(close)
    requires Pos(p.rest) <= Pos(close) && Text(st.raw, Pos(p.rest), Pos(close), d) == []
    ensures InOrder(st, Parsed(p.tree, close), [], d)
  {
    TextSplit(st.raw, Pos(st), Pos(open), Pos(close), d);
    TextSplit(st.raw, Pos(open), Pos(p.rest), Pos(close), d);
  }

  /** `parseExpression()` reads its operands in order. */
  lemma ExpressionInOrder(st: LexState, d: Doubles)
    requires Ready(st, d)
    ensures var r := Expression(st, d);
            r.Success? ==> InOrder(st, r.value, [], d)
    decreases Measure(st), 9
  {
    var first := AddExp(st, d);
    if first.Success? {
      AddExpInOrder(st, d);
      var p := first.value;
      ExpressionLoopInOrder(p.tree, p.rest, d);
      var r := ExpressionLoop(p.tree, p.rest, d);
      assert Expression(st, d) == r;
      if r.Success? {
        InOrderThen(st, p, r.value, [], d);
      }
    }
  }

  /** The `#` loop puts each operand after the ones before it. */
  lemma ExpressionLoopInOrder(acc: TreeNode, st: LexState, d: Doubles)
    requires Ready(st, d) && Full(acc, d.toString)
    ensures var r := ExpressionLoop(acc, st, d);
            r.Success? ==> InOrder(st, r.value, Yield(acc), d)
    decreases Measure(st), 8
  {
    var r := ExpressionLoop(acc, st, d);
    if r.Success? && st.tok == '#' as int {
      ExpressionLoopUnroll(acc, st, d);
      var p := AddExp(Matched(st, '#' as int, d).value, d).value;
      AddExpInOrder(Matched(st, '#' as int, d).value, d);
      ExpressionLoopInOrder(Node("#", acc, p.tree), p.rest, d);
      OperatorRound(acc, st, p, r.value, d);
    }
  }

  /** A successful round of the `#` loop: a `#`, an operand, and the rest
      of the loop from there. */
  lemma ExpressionLoopUnroll(acc: TreeNode, st: LexState, d: Doubles)
    requires Good(st, d) && Started(st) && Full(acc, d.toString)
    requires st.tok == '#' as int && ExpressionLoop(acc, st, d).Success?
    ensures Matched(st, '#' as int, d).Success?
    ensures var m := Matched(st, '#' as int, d).value;
            Good(m, d) && Started(m) && m.raw == st.raw
    ensures AddExp(Matched(st, '#' as int, d).value, d).Success?
    ensures var p := AddExp(Matched(st, '#' as int, d).value, d).value;
            var node := Node("#", acc, p.tree);
            && Good(p.rest, d) && p.rest.raw == st.raw && Full(node, d.toString) && Measure(p.rest) < Measure(st)
            && ExpressionLoop(acc, st, d) == ExpressionLoop(node, p.rest, d)
  {
    MatchedText(st, '#' as int, d);
    var m := Matched(st, '#' as int, d).value;
    var p := AddExp(m, d).value;
  }

  /** `parseAddExp()` reads its operands in order. */
  lemma AddExpInOrder(st: LexState, d: Doubles)
    requires Ready(st, d)
    ensures var r := AddExp(st, d);
            r.Success? ==> InOrder(st, r.value, [], d)
    decreases Measure(st), 7
  {
    var first := Mulexp(st, d);
    if first.Success? {
      MulexpInOrder(st, d);
      var p := first.value;
      AddExpLoopInOrder(p.tree, p.rest, d);
      var r := AddExpLoop(p.tree, p.rest, d);
      assert AddExp(st, d) == r;
      if r.Success? {
        InOrderThen(st, p, r.value, [], d);
      }
    }
  }

  /** The `+`/`-` loop puts each operand after the ones before it. */
  lemma AddExpLoopInOrder(acc: TreeNode, st: LexState, d: Doubles)
    requires Ready(st, d) && Full(acc, d.toString)
    ensures var r := AddExpLoop(acc, st, d);
            r.Success? ==> InOrder(st, r.value, Yield(acc), d)
    decreases Measure(st), 6
  {
    var r := AddExpLoop(acc, st, d);
    if r.Success? && (st.tok == '+' as int || st.tok == '-' as int) {
      AddExpLoopUnroll(acc, st, d);
      var p := Mulexp(Matched(st, st.tok, d).value, d).value;
      MulexpInOrder(Matched(st, st.tok, d).value, d);
      AddExpLoopInOrder(Node([st.tok as char], acc, p.tree), p.rest, d);
      OperatorRound(acc, st, p, r.value, d);
    }
  }

  /** A successful round of the `+`/`-` loop: the operator, an operand, and
      the rest of the loop from there. */
  lemma AddExpLoopUnroll(acc: TreeNode, st: LexState, d: Doubles)
    requires Good(st, d) && Started(st) && Full(acc, d.toString)
    requires (st.tok == '+' as int || st.tok == '-' as int) && AddExpLoop(acc, st, d).Success?
    ensures Matched(st, st.tok, d).Success?
    ensures var m := Matched(st, st.tok, d).value;
            Good(m, d) && Started(m) && m.raw == st.raw
    ensures Mulexp(Matched(st, st.tok, d).value, d).Success?
    ensures var p := Mulexp(Matched(st, st.tok, d).value, d).value;
            var node := Node([st.tok as char], acc, p.tree);
            && Good(p.rest, d) && p.rest.raw == st.raw && Full(node, d.toString) && Measure(p.rest) < Measure(st)
            && AddExpLoop(acc, st, d) == AddExpLoop(node, p.rest, d)
  {
    MatchedText(st, st.tok, d);
    var m := Matched(st, st.tok, d).value;
    var p := Mulexp(m, d).value;
  }

  /** `parseMulexp()` reads its operands in order. */
  lemma MulexpInOrder(st: LexState, d: Doubles)
    requires Ready(st, d)
    ensures var r := Mulexp(st, d);
            r.Success? ==> InOrder(st, r.value, [], d)
    decreases Measure(st), 5
  {
    var first := Exponentexp(st, d);
    if first.Success? {
      ExponentexpInOrder(st, d);
      var p := first.value;
      MulexpLoopInOrder(p.tree, p.rest, d);
      var r := MulexpLoop(p.tree, p.rest, d);
      assert Mulexp(st, d) == r;
      if r.Success? {
        InOrderThen(st, p, r.value, [], d);
      }
    }
  }

  /** The `*`/`/` loop puts each operand after the ones before it. */
  lemma MulexpLoopInOrder(acc: TreeNode, st: LexState, d: Doubles)
    requires Ready(st, d) && Full(acc, d.toString)
    ensures var r := MulexpLoop(acc, st, d);
            r.Success? ==> InOrder(st, r.value, Yield(acc), d)
    decreases Measure(st), 4
  {
    var r := MulexpLoop(acc, st, d);
    if r.Success? && (st.tok == '*' as int || st.tok == '/' as int) {
      MulexpLoopUnroll(acc, st, d);
      var p := Exponentexp(Matched(st, st.tok, d).value, d).value;
      ExponentexpInOrder(Matched(st, st.tok, d).value, d);
      MulexpLoopInOrder(Node([st.tok as char], acc, p.tree), p.rest, d);
      OperatorRound(acc, st, p, r.value, d);
    }
  }

  /** A successful round of the `*`/`/` loop: the operator, an operand, and
      the rest of the loop from there. */
  lemma MulexpLoopUnroll(acc: TreeNode, st: LexState, d: Doubles)
    requires Good(st, d) && Started(st) && Full(acc, d.toString)
    requires (st.tok == '*' as int || st.tok == '/' as int) && MulexpLoop(acc, st, d).Success?
    ensures Matched(st, st.tok, d).Success?
    ensures var m := Matched(st, st.tok, d).value;
            Good(m, d) && Started(m) && m.raw == st.raw
    ensures Exponentexp(Matched(st, st.tok, d).value, d).Success?
    ensures var p := Exponentexp(Matched(st, st.tok, d).value, d).value;
            var node := Node([st.tok as char], acc, p.tree);
            && Good(p.rest, d) && p.rest.raw == st.raw && Full(node, d.toString) && Measure(p.rest) < Measure(st)
            && MulexpLoop(acc, st, d) == MulexpLoop(node, p.rest, d)
  {
    MatchedText(st, st.tok, d);
    var m := Matched(st, st.tok, d).value;
    var p := Exponentexp(m, d).value;
  }

  /** `parseExponentexp()` reads its operands in order when no repair fires. */
  lemma ExponentexpInOrder(st: LexState, d: Doubles)
    requires Ready(st, d)
    ensures var r := Exponentexp(st, d);
            r.Success? ==> InOrder(st, r.value, [], d)
    decreases Measure(st), 3
  {
    var first := Rootexp(st, d);
    if first.Success? {
      RootexpInOrder(st, d);
      var p := first.value;
      ExponentexpLoopInOrder(0, p.tree, p.rest, d);
      var r := ExponentexpLoop(0, p.tree, p.rest, d);
      assert Exponentexp(st, d) == r;
      if r.Success? {
        InOrderThen(st, p, r.value, [], d);
      }
    }
  }

  /** The `^` loop, with `endCheckExponent` clear, puts each operand after the
      ones before it. */
  lemma ExponentexpLoopInOrder(i: nat, acc: TreeNode, st: LexState, d: Doubles)
    requires Ready(st, d) && Full(acc, d.toString)
    requires i > 0 ==> IsCaretNode(acc)
    ensures var r := ExponentexpLoop(i, acc, st, d);
            r.Success? ==> InOrder(st, r.value, Yield(acc), d)
    decreases Measure(st), 2
  {
    var r := ExponentexpLoop(i, acc, st, d);
    if r.Success? && st.tok == '^' as int {
      ExponentexpLoopUnroll(i, acc, st, d);
      var p := Rootexp(Matched(st, '^' as int, d).value, d).value;
      RootexpInOrder(Matched(st, '^' as int, d).value, d);
      EndNeverSet(p.rest, d);
      assert Repair(i, Node("^", acc, p.tree), p.rest.end) == (i, Node("^", acc, p.tree));
      ExponentexpLoopInOrder(i, Node("^", acc, p.tree), p.rest, d);
      OperatorRound(acc, st, p, r.value, d);
    }
  }

  /** A successful round of the `^` loop: a `^`, an operand, the repair,
      and the rest of the loop from there. */
  lemma ExponentexpLoopUnroll(i: nat, acc: TreeNode, st: LexState, d: Doubles)
    requires Good(st, d) && Started(st) && Full(acc, d.toString) && (i > 0 ==> IsCaretNode(acc))
    requires st.tok == '^' as int && ExponentexpLoop(i, acc, st, d).Success?
    ensures Matched(st, '^' as int, d).Success?
    ensures var m := Matched(st, '^' as int, d).value;
            Good(m, d) && Started(m) && m.raw == st.raw
    ensures Rootexp(Matched(st, '^' as int, d).value, d).Success?
    ensures var p := Rootexp(Matched(st, '^' as int, d).value, d).value;
            var next := Repair(i, Node("^", acc, p.tree), p.rest.end);
            && Good(p.rest, d) && p.rest.raw == st.raw && Full(next.1, d.toString) && Measure(p.rest) < Measure(st)
            && ExponentexpLoop(i, acc, st, d) == ExponentexpLoop(next.0, next.1, p.rest, d)
  {
    MatchedText(st, '^' as int, d);
    var m := Matched(st, '^' as int, d).value;
    var p := Rootexp(m, d).value;
  }

  /** `parseRootexp()` reads a number as its printed value and a
      parenthesized expression as the expression's reading. */
  lemma RootexpInOrder(st: LexState, d: Doubles)
    requires Ready(st, d)
    ensures var r := Rootexp(st, d);
            r.Success? ==> InOrder(st, r.value, [], d)
    decreases Measure(st), 1
  {
    if st.tok == '(' as int && Rootexp(st, d).Success? {
      ParenUnroll(st, d);
      var m1 := Matched(st, '(' as int, d).value;
      ExpressionInOrder(m1, d);
      ParenRound(st, Expression(m1, d).value, d);
    } else if st.tok == NumberToken && Matched(st, NumberToken, d).Success? {
      MatchedText(st, NumberToken, d);
    }
  }

  /** A successful parenthesized `parseRootexp()`: `(`, an expression, `)`. */
  lemma ParenUnroll(st: LexState, d: Doubles)
    requires Good(st, d) && Started(st) && st.tok == '(' as int && Rootexp(st, d).Success?
    ensures Matched(st, '(' as int, d).Success?
    ensures var m := Matched(st, '(' as int, d).value;
            Good(m, d) && Started(m) && m.raw == st.raw
    ensures Expression(Matched(st, '(' as int, d).value, d).Success?
    ensures var p := Expression(Matched(st, '(' as int, d).value, d).value;
            && Good(p.rest, d) && p.rest.raw == st.raw && Matched(p.rest, ')' as int, d).Success?
            && Rootexp(st, d) == Success(Parsed(p.tree, Matched(p.rest, ')' as int, d).value))
  {
    MatchedText(st, '(' as int, d);
    var m1 := Matched(st, '(' as int, d).value;
    var p := Expression(m1, d).value;
  }

  /** The parentheses around an operand `p` read in order as nothing. */
  lemma ParenRound(st: LexState, p: Parsed, d: Doubles)
    requires Ready(st, d) && st.tok == '(' as int && Matched(st, '(' as int, d).Success?
    requires InOrder(Matched(st, '(' as int, d).value, p, [], d)
    requires Ready(p.rest, d) && p.rest.tok == ')' as int && Matched(p.rest, ')' as int, d).Success?
    ensures InOrder(st, Parsed(p.tree, Matched(p.rest, ')' as int, d).value), [], d)
  {
    MatchedText(st, '(' as int, d);
    MatchedText(p.rest, ')' as int, d);
    InOrderWrap(st, Matched(st, '(' as int, d).value, p, Matched(p.rest, ')' as int, d).value, d);
  }

  /** The plain `^` fold puts each operand after the ones before it. */
  lemma NaiveLoopInOrder(acc: TreeNode, st: LexState, d: Doubles)
    requires Ready(st, d)
    ensures var r := NaiveLoop(acc, st, d);
            r.Success? ==> InOrder(st, r.value, Yield(acc), d)
    decreases Measure(st)
  {
    var r := NaiveLoop(acc, st, d);
    if r.Success? && st.tok == '^' as int {
      NaiveLoopUnroll(acc, st, d);
      var p := Rootexp(Matched(st, '^' as int, d).value, d).value;
      RootexpInOrder(Matched(st, '^' as int, d).value, d);
      NaiveLoopInOrder(Node("^", acc, p.tree), p.rest, d);
      OperatorRound(acc, st, p, r.value, d);
    }
  }

  /** A successful round of the plain `^` fold. */
  lemma NaiveLoopUnroll(acc: TreeNode, st: LexState, d: Doubles)
    requires Good(st, d) && Started(st)
    requires st.tok == '^' as int && NaiveLoop(acc, st, d).Success?
    ensures Matched(st, '^' as int, d).Success?
    ensures var m := Matched(st, '^' as int, d).value;
            Good(m, d) && Started(m) && m.raw == st.raw
    ensures Rootexp(Matched(st, '^' as int, d).value, d).Success?
    ensures var p := Rootexp(Matched(st, '^' as int, d).value, d).value;
            && Good(p.rest, d) && p.rest.raw == st.raw && Measure(p.rest) < Measure(st)
            && NaiveLoop(acc, st, d) == NaiveLoop(Node("^", acc, p.tree), p.rest, d)
  {
    MatchedText(st, '^' as int, d);
    var m := Matched(st, '^' as int, d).value;
    var p := Rootexp(m, d).value;
  }

  /** The tree the constructor keeps reads as the text of the input up to
      where parsing stopped, and as the whole input when there is no
      message. */
  lemma ParseInOrder(s: string, d: Doubles)
    requires CaretsUnpaired(Split(s))
    ensures var raw := Split(s);
            var rep := Parse(s, d);
            && (rep.ast.Some? ==> Yield(rep.ast.value) <= Text(raw, 0, |raw|, d))
            && (rep.message.None? ==> Yield(rep.ast.value) == Text(raw, 0, |raw|, d))
  {
    var raw := Split(s);
    var st0 := Tokenized(s);
    assert Good(st0, d);
    var first := Step(st0, d);
    if first.Success? {
      var st := first.value;
      StepLands(st0, d);
      TextSkip(raw, 0, Pos(st), d);
      var e := Expression(st, d);
      if e.Success? {
        ExpressionInOrder(st, d);
        var p := e.value;
        TextSplit(raw, 0, Pos(st), Pos(p.rest), d);
        TextSplit(raw, 0, Pos(p.rest), |raw|, d);
        assert Parse(s, d).ast == Some(p.tree);
      }
    }
  }
}
