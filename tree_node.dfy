/** The abstract syntax tree of TreeNode.java: an immutable binary node with a
    string symbol and two children, either of which may be absent (`null` in
    Java). Since a datatype value cannot change, a node's symbol and children
    are the ones it was built with for as long as it exists. */
module Trees {
  import opened Wrappers

  datatype TreeNode = TreeNode(symbol: string, left: Option<TreeNode>, right: Option<TreeNode>)
  {
    /** `isLeaf()`: both children are absent. */
    predicate IsLeaf()
      ensures IsLeaf() ==> !IsInternal()
    {
      left.None? && right.None?
    }

    /** Both children are present. */
    predicate IsInternal() { left.Some? && right.Some? }

    /** `toString()` prints the symbol and nothing else. */
    function ToString(): (s: string)
      ensures s == symbol
    {
      symbol
    }
  }

  /** The one-argument constructor `TreeNode(symbol)`. */
  function Leaf(symbol: string): (n: TreeNode)
    ensures n.IsLeaf() && !n.IsInternal()
    ensures n.symbol == symbol && n.ToString() == symbol
  {
    TreeNode(symbol, None, None)
  }

  /** A three-argument node with both children present, as the parser builds them. */
  function Node(symbol: string, left: TreeNode, right: TreeNode): (n: TreeNode)
    ensures n.IsInternal() && !n.IsLeaf()
    ensures n.symbol == symbol && n.left.value == left && n.right.value == right
  {
    TreeNode(symbol, Some(left), Some(right))
  }

  /** The symbols the parser puts on internal nodes. */
  predicate IsOperator(symbol: string)
  {
    symbol == "#" || symbol == "+" || symbol == "-" || symbol == "*" || symbol == "/" || symbol == "^"
  }

  /** A tree as a successful parse leaves it: every node has no child or two;
      internal nodes carry an operator and leaves carry the text `show` gives
      some number. */
  ghost predicate Full(t: TreeNode, show: real -> string)
  {
    if t.IsLeaf() then exists v: real :: t.symbol == show(v)
    else t.IsInternal() && IsOperator(t.symbol)
         && Full(t.left.value, show) && Full(t.right.value, show)
  }

  /** An internal `^` node. */
  predicate IsCaretNode(t: TreeNode)
  {
    t.symbol == "^" && t.IsInternal()
  }

  /** The operands of the `^` chain at the top of `t`: the maximal subtrees
      that are not themselves internal `^` nodes, counted with multiplicity. */
  function Operands(t: TreeNode): (m: multiset<TreeNode>)
    ensures !IsCaretNode(t) ==> m == multiset{t}
    ensures |m| > 0
  {
    if IsCaretNode(t) then Operands(t.left.value) + Operands(t.right.value)
    else multiset{t}
  }

  /** The number of internal `^` nodes in `t`. */
  function Carets(t: TreeNode): nat
  {
    (if IsCaretNode(t) then 1 else 0)
    + (if t.left.Some? then Carets(t.left.value) else 0)
    + (if t.right.Some? then Carets(t.right.value) else 0)
  }

  /** The in-order reading of a tree: the left child's reading, the node's
      own symbol, then the right child's reading. */
  function Yield(t: TreeNode): (y: seq<string>)
    ensures t.IsLeaf() ==> y == [t.symbol]
    ensures |y| > 0
  {
    (if t.left.Some? then Yield(t.left.value) else [])
    + [t.symbol]
    + (if t.right.Some? then Yield(t.right.value) else [])
  }

  /** `t` is `acc` with zero or more internal nodes whose symbols are in `ops`
      stacked on its left spine: the shape of a left-to-right fold. */
  predicate LeftSpine(t: TreeNode, acc: TreeNode, ops: set<string>)
  {
    t == acc || (t.IsInternal() && t.symbol in ops && LeftSpine(t.left.value, acc, ops))
  }

  /** Stacking one more operator from `ops` on top of `acc` keeps `t` a
      left spine over `acc`. */
  lemma {:induction false} LeftSpineGrow(t: TreeNode, acc: TreeNode, op: string, right: TreeNode, ops: set<string>)
    requires op in ops && LeftSpine(t, Node(op, acc, right), ops)
    ensures LeftSpine(t, acc, ops)
  {
    if t != Node(op, acc, right) {
      LeftSpineGrow(t.left.value, acc, op, right, ops);
    }
  }

  /** A leaf whose symbol is what `show` prints for some number is full. */
  lemma LeafIsFull(v: real, show: real -> string)
    ensures Full(Leaf(show(v)), show)
  {
  }
}
