# A verified model of the calculator's lexer and parser

The repository is a small Java calculator. `CalcLexer` splits an input
string into tokens. `CalcParser` is a recursive-descent parser that builds a
tree of `TreeNode`s for expressions over numbers, parentheses and the binary
operators `#`, `+`, `-`, `*`, `/` and `^`. Precedence goes from loosest to
tightest: `#`, then `+ -`, then `* /`, then `^`. The lexer also keeps two
flags that track runs of `^`. The parser's `^` loop reads those flags to
rearrange its tree, trying to make `^` group from the right.

The model has ten modules:

- `Wrappers` (wrappers.dfy): `Option`, `Result` and `Outcome`.
- `Trees` (tree_node.dfy): `TreeNode` as an immutable datatype, with the
  predicates the parser's proofs use. These are `Full` (the shape of a
  successful parse), `Operands` and `Carets` (the operands of a `^` chain and
  its number of `^` nodes), `LeftSpine` (the shape of a left-to-right fold)
  and `Yield` (the in-order reading of a tree).
- `Lexer` (calc_lexer.dfy):
  - the `StringTokenizer` split as the function `Split`;
  - one `advance()` as the function `Step` on a `LexState` value, with the
    invariant `Good` that every step keeps. `Good` says that the cursor is
    within the raw tokens, that the two flags are those that `FlagStep` gives
    for the symbol tokens read so far, and that the current token is
    `EOLN_TOKEN` only at the end. It also says that a current number or
    symbol comes from the raw token just read;
  - the class `CalcLexer`, whose fields are the Java fields. Its methods are
    proved to do what `Step` says.
- `Parser` (calc_parser.dfy):
  - one function per parse routine, and one per routine's loop, on `LexState`
    values;
  - the constructor's result as `Parse`;
  - the class `CalcParser`, whose recursive methods update a shared
    `CalcLexer` in place and are proved equal to those functions.
- `ParserFacts` (parser_facts.dfy): the `^` repair compared with a plain
  left fold.
- `ParserYield` (parser_yield.dfy): the operands of every tree the parser
  builds appear in input order. A tree's in-order reading is the text of the
  raw tokens its routine consumed. In that text a number token reads as
  `Double.toString` of its value, a symbol as itself, and parentheses and
  white space read as nothing. This holds on the inputs `CaretsUnpaired`
  admits: among the operator and parenthesis tokens, no `^` is followed
  directly by another `^`. That excludes every chain `a^b^c`, such as `2^3^2`,
  and the repair never fires on the inputs it admits.
- `ParserReads` (parser_reads.dfy): on every input, chains of `^` included,
  a tree holds the symbols of the tokens its routine consumed, each as often
  as it was read. Only the order is lost.
- `ParserGrouping` (parser_grouping.dfy): on every input without `(`, the
  tree is grouped by level. The left operand of a `#`, `+ -` or `* /` node
  binds at least as tightly as the node, and its right operand binds strictly
  more tightly. Together with the in-order reading this fixes the tree: one
  level folds from the left, and a tighter level sits below a looser one.
- `TestVectors` and `ErrorVectors` (test_vectors.dfy, error_vectors.dfy): the
  complete outcome of the constructor on concrete inputs. Some come from
  TestInterpreter.java; others show the edge cases of the code.

`Double.valueOf` and `Double.toString` are parameters of the model (the
datatype `Lexer.Doubles`). `valueOf` returning `None` stands for a
`NumberFormatException`. A number leaf therefore carries `d.toString(v)`.
The concrete inputs say only what `valueOf` must give on their number
tokens.

### Where the code differs from its description

The delimiter string at CalcLexer.java:48 is `"\t\n\r#+-*/^()"`. The
comments at CalcLexer.java:44 and CalcLexer.java:65 say white space is a
delimiter. The space
character is not in the string, however. This model follows the code, so a
space never splits a token:

- `2 3` is one raw token `"2 3"`. Because it is longer than one character, it
  goes to `Double.valueOf`. When that rejects it, the lexer fails with
  `Lexer error: Illegal format for a number` (`ErrorVectors.SpaceJoinsRuns`).
- ` 2` is one raw token that begins with white space. `advance()` then skips
  the whole token, number included, and the parser reports `Parse Error:
  Expected a number or a parenthesis.` (`ErrorVectors.LeadingSpaceHidesNumber`).

The `^` repair at CalcParser.java:139-146 makes `2^3^2` group as
`2^(3^2)`. It does not make `^` right-associative in general: `2^3^2^2`
becomes `((3^2)^2)^2` and `2^(3)^2` becomes `(2^3)^2`. The model states
what the code does, and the vectors `TestVectors.PowerChainOfFour` and
`TestVectors.GroupedPower` pin down those two trees. The general statement
it does prove is `ParserFacts.ExponentexpPermutesNaive`: the repaired loop
reads the same tokens and fails in the same way as a plain left fold, and it
builds the same multiset of `^` operands with the same number of `^` nodes.

## Model

| member | source | states |
|---|---|---|
| Trees.Leaf | TreeNode.java:9-11 | the one-argument constructor gives a node with no children (`isLeaf()`), whose symbol and `toString()` are the argument |
| Trees.Node | TreeNode.java:5-7 | the three-argument constructor with both children present, the only way the parser calls it: it keeps its symbol (`getSymbol()`), left child (`getLeft()`) and right child (`getRight()`) as given, and the node is not a leaf. The Java constructor also accepts `null` children, as TreeNode.java:10 does; that case is `Trees.Leaf` |
| Trees.TreeNode.IsLeaf | TreeNode.java:26-28 | a node for which `isLeaf()` holds (both children absent) never has two children |
| Trees.Yield | CalcParser.java:74 | a specification device for the grammar comments at CalcParser.java:74, 92, 112 and 134, which write each rule as its operands and operators in input order. It is the in-order reading of a tree: left child, symbol, right child; a leaf reads as its symbol alone, and no reading is empty |
| Trees.TreeNode.ToString | TreeNode.java:21-24 | `toString()` is the symbol |
| Trees.Operands | CalcParser.java:139-146 | the operands of the top `^` chain are never empty, and a tree that is not a `^` node is its own one operand |
| Trees.LeftSpineGrow | CalcParser.java:73-124 | stacking one more operator of a level onto the accumulator keeps the result a left fold over the earlier accumulator |
| Lexer.Split | CalcLexer.java:48 | the `StringTokenizer` with delimiters returned as tokens (the recursion is `SplitFrom`): every token is one delimiter or a non-empty run of non-delimiters, the tokens joined give back the input, and no two runs follow each other |
| Lexer.RunEnd | CalcLexer.java:48 | the end of a run of non-delimiters lies between its start and the end of the input |
| Lexer.RunEndBounds | CalcLexer.java:48 | a run holds no delimiter and ends at a delimiter or at the end of the input |
| Lexer.SplitTokens | CalcLexer.java:48 | every token of the split is non-empty, and is either one delimiter or a run of non-delimiters |
| Lexer.SplitConcat | CalcLexer.java:48 | the tokens of the split, joined, give back the input: nothing is lost or reordered |
| Lexer.SplitMaximal | CalcLexer.java:48 | runs are maximal: no two runs of non-delimiters follow each other |
| Lexer.SymbolsBefore | CalcLexer.java:90-92 | the symbols read from the first `n` raw tokens are at most `n` |
| Lexer.FlagStep | CalcLexer.java:93-103 | one symbol's effect on the two flags: `startCheckExponent` becomes set exactly on a `^` when it was clear; `endCheckExponent` is set on a `^` while `startCheckExponent` was set and is newly set only then; on a symbol other than `^` it is kept when `startCheckExponent` was clear and cleared when it was set; the two are never both set |
| Lexer.FlagsCharacterised | CalcLexer.java:93-103 | `startCheckExponent` holds exactly when the symbols read end in an odd number of `^`; `endCheckExponent` holds exactly when the last run of `^` (ignoring later symbols) has even, positive length |
| Lexer.FlagsExclusive | CalcLexer.java:27 | the two exponent flags are never both set |
| Lexer.CaretRun | CalcLexer.java:93-103 | the trailing run of `^` is no longer than the symbols read |
| Lexer.UpToLastCaret | CalcLexer.java:93-103 | cutting the symbols after the last `^` leaves a prefix that is empty or ends in `^` |
| Lexer.Initial | CalcLexer.java:14-27 | a new lexer stands before its first raw token with both flags false |
| Lexer.NextSignificant | CalcLexer.java:68-81 | the skip loop stops at the first raw token that does not begin with white space, or at the end; every token it passes begins with white space |
| Lexer.SymbolsSkip | CalcLexer.java:78-81 | skipping white-space tokens reads no symbol and so leaves the flags alone |
| Lexer.Classified | CalcLexer.java:82-105 | a raw token longer than one character or starting with a digit fails exactly when `Double.valueOf` rejects it, and then with `Lexer error: Illegal format for a number`; the position is unchanged |
| Lexer.ClassifiedIsGood | CalcLexer.java:82-105 | a classification that succeeds keeps the lexer invariant: the token is a number whose value `valueOf` gave, or that symbol with the flags updated |
| Lexer.Step | CalcLexer.java:63-107 | `advance()` keeps the lexer invariant and never moves back; it consumes a token unless the current token is `EOLN_TOKEN`; it fails only with the illegal-number message; at the end of input it gives `EOLN_TOKEN`, and once there it changes nothing |
| Lexer.StepCases | CalcLexer.java:68-105 | `advance()` gives `EOLN_TOKEN` when only white-space tokens remain, and otherwise classifies the first other raw token |
| Lexer.Tokenized | CalcLexer.java:48 | the lexer before its first `advance()` holds the split of the input and satisfies the invariant for every `valueOf` |
| Lexer.FirstTokenClassified | CalcLexer.java:55 | after construction the token is `EOLN_TOKEN` exactly when every raw token begins with white space; otherwise it comes from the first raw token that does not |
| Lexer.CalcLexer.Tokenize | CalcLexer.java:48 | the fields hold the split of the input at their Java defaults, and the lexer is valid |
| Lexer.CalcLexer.Create | CalcLexer.java:41-56 | on success, a fresh valid lexer in the state `advance()` gives the tokenized input; on failure, the error of that first `advance()` |
| Lexer.CalcLexer.Advance | CalcLexer.java:63-107 | the loop leaves the fields as `Step` says and keeps the lexer valid; on failure the offending raw token has been read and nothing else has changed |
| Lexer.CalcLexer.Classify | CalcLexer.java:82-105 | the fields become what `Classified` says; on failure they are unchanged |
| Lexer.CalcLexer.PairExponents | CalcLexer.java:93-103 | the two flags become `FlagStep` of their old values, and no other field changes |
| Lexer.CalcLexer.NextToken | CalcLexer.java:124-126 | the current token is a marker or a non-white-space character; `EOLN_TOKEN` only at the end of input; a character is always the raw token just read |
| Lexer.CalcLexer.GetNum | CalcLexer.java:114-116 | for a `NUMBER_TOKEN`, the value is what `valueOf` gave the raw token just read |
| Lexer.CalcLexer.IsEndCheckExponent | CalcLexer.java:132-134 | holds exactly when the last run of `^` read has even, positive length; it excludes `startCheckExponent` |
| Parser.Matched | CalcParser.java:50-66 | `match(t)` succeeds only on the current token `t`, as one `advance()`; otherwise it fails with the message for `t`: unexpected text for `EOLN_TOKEN`, expected a number for `NUMBER_TOKEN`, expected that character otherwise |
| Parser.MatchError | CalcParser.java:55-63 | the mismatch message tells which token was expected: it is the unexpected-text message exactly for `EOLN_TOKEN`, the expected-number message exactly for `NUMBER_TOKEN`, and for a character it ends in that character and a full stop |
| Parser.Expression | CalcParser.java:73-82 | a parse consumes at least one token, leaves a full tree and a valid lexer, and stops at a token other than `#`; it fails only with a lexer, operand or `)` message |
| Parser.ExpressionLoop | CalcParser.java:76-82 | the `#` loop folds to the left onto its accumulator, returns it unchanged when the token is not `#`, and exits at a token other than `#`; `ParserYield.ExpressionLoopInOrder` gives the order of the operands and `ParserGrouping.ExpressionLoopGrouped` the grouping |
| Parser.AddExp | CalcParser.java:91-102 | as `Expression`, stopping at a token other than `+` and `-` |
| Parser.AddExpLoop | CalcParser.java:94-102 | the `+`/`-` loop folds to the left and exits at a token other than `+` and `-`; `ParserYield.AddExpLoopInOrder` gives the order of the operands and `ParserGrouping.AddExpLoopGrouped` the grouping |
| Parser.Mulexp | CalcParser.java:111-124 | as `Expression`, stopping at a token other than `*` and `/` |
| Parser.MulexpLoop | CalcParser.java:114-124 | the `*`/`/` loop folds to the left and exits at a token other than `*` and `/`; `ParserYield.MulexpLoopInOrder` gives the order of the operands and `ParserGrouping.MulexpLoopGrouped` the grouping |
| Parser.Swap | CalcParser.java:142 | the first repair exchanges the two children of the new `^` node and keeps its operands and `^` count |
| Parser.Rotate | CalcParser.java:144 | a later repair turns `^(^(a, b), c)` into `^(b, ^(a, c))` and keeps its operands and `^` count |
| Parser.Repair | CalcParser.java:139-146 | the counter goes up exactly when `isEndCheckExponent()` holds; the node stays a `^` node over the same operands, with the same `^` count, and stays full |
| Parser.Exponentexp | CalcParser.java:133-150 | as `Expression`, stopping at a token other than `^` |
| Parser.ExponentexpLoop | CalcParser.java:135-150 | the `^` loop with its counter exits at a token other than `^` and returns the accumulator unchanged when the token is not `^`; the rotation never meets an absent child |
| Parser.Rootexp | CalcParser.java:159-171 | a number becomes the leaf `Double.toString` prints for it; a token other than `(` and a number fails with `Parse Error: Expected a number or a parenthesis.` |
| Parser.Parse | CalcParser.java:21-36 | the constructor leaves a full tree or none; with no message there is a tree; a tree with a message means unexpected trailing text; no tree means a lexer or parse error message |
| Parser.ParseFrom | CalcParser.java:29-35 | the same four facts, for the constructor once the first token has been read |
| Parser.CalcParser.constructor | CalcParser.java:21-36 | the object's `ast` and message are exactly `Parse` of the input |
| Parser.CalcParser.ParseInput | CalcParser.java:29-35 | the `try` block after the lexer is built leaves `ast` and the message as `ParseFrom` says |
| Parser.CalcParser.GetAST | CalcParser.java:38-40 | `getAST()` returns a full tree or none |
| Parser.CalcParser.Match | CalcParser.java:50-66 | the shared lexer moves as `Matched` says, and stays valid on success |
| Parser.CalcParser.ParseExpression | CalcParser.java:73-82 | the tree returned and the lexer afterwards are those of `Expression`, or the same error |
| Parser.CalcParser.ParseAddExp | CalcParser.java:91-102 | the tree returned and the lexer afterwards are those of `AddExp`, or the same error |
| Parser.CalcParser.ParseMulexp | CalcParser.java:111-124 | the tree returned and the lexer afterwards are those of `Mulexp`, or the same error |
| Parser.CalcParser.ParseExponentexp | CalcParser.java:133-150 | the tree returned and the lexer afterwards are those of `Exponentexp`, repairs included, or the same error |
| Parser.CalcParser.ParseRootexp | CalcParser.java:159-171 | the tree returned and the lexer afterwards are those of `Rootexp`, or the same error |
| ParserFacts.NaiveLoop | CalcParser.java:135-138 | the `^` loop without the repair is a left fold onto its accumulator that keeps the lexer valid |
| ParserFacts.RepairPermutesOperands | CalcParser.java:139-146 | from any accumulator, the repaired loop and the plain fold succeed or fail together, with the same error, stop at the same token, and build the same operands under the same number of `^` nodes |
| ParserFacts.ExponentexpPermutesNaive | CalcParser.java:133-150 | `parseExponentexp()` reads what a plain left fold of `^` reads and only rearranges its operands |
| ParserYield.StepText | CalcLexer.java:63-107 | one `advance()` from a current token other than `EOLN_TOKEN` lands past it, on a raw token not beginning with white space or at the end; the raw tokens it passes read as exactly the current token's text |
| ParserYield.MatchedText | CalcParser.java:50-66 | a successful `match(t)` for `t` other than `EOLN_TOKEN` consumes exactly the text of the current token |
| ParserYield.FlagsUnpaired | CalcLexer.java:93-103 | when no `^` among the symbols read is followed directly by another, `endCheckExponent` stays clear, and `startCheckExponent` is set only right after a `^` |
| ParserYield.EndNeverSet | CalcParser.java:139-146 | on an input that `CaretsUnpaired` admits, `isEndCheckExponent()` is false in every state of the lexer, so the repair never fires |
| ParserYield.ExpressionInOrder | CalcParser.java:73-82 | on inputs `CaretsUnpaired` admits, the tree `parseExpression()` builds reads as the text of the tokens it consumed |
| ParserYield.ExpressionLoopInOrder | CalcParser.java:76-82 | on inputs `CaretsUnpaired` admits, the `#` loop's tree reads as its accumulator followed by the text of the tokens the loop consumed |
| ParserYield.AddExpInOrder | CalcParser.java:91-102 | on inputs `CaretsUnpaired` admits, the tree `parseAddExp()` builds reads as the text of the tokens it consumed |
| ParserYield.AddExpLoopInOrder | CalcParser.java:94-102 | on inputs `CaretsUnpaired` admits, the `+`/`-` loop's tree reads as its accumulator followed by the text of the tokens the loop consumed |
| ParserYield.MulexpInOrder | CalcParser.java:111-124 | on inputs `CaretsUnpaired` admits, the tree `parseMulexp()` builds reads as the text of the tokens it consumed |
| ParserYield.MulexpLoopInOrder | CalcParser.java:114-124 | on inputs `CaretsUnpaired` admits, the `*`/`/` loop's tree reads as its accumulator followed by the text of the tokens the loop consumed |
| ParserYield.ExponentexpInOrder | CalcParser.java:133-150 | on inputs `CaretsUnpaired` admits, the tree `parseExponentexp()` builds reads as the text of the tokens it consumed |
| ParserYield.ExponentexpLoopInOrder | CalcParser.java:135-150 | on inputs `CaretsUnpaired` admits, the `^` loop's tree reads as its accumulator followed by the text of the tokens the loop consumed, whatever the repair counter |
| ParserYield.RootexpInOrder | CalcParser.java:159-171 | on inputs `CaretsUnpaired` admits, a number reads as `Double.toString` of its value; a parenthesised expression reads as the expression, the parentheses adding nothing |
| ParserYield.NaiveLoopInOrder | CalcParser.java:135-138 | the plain `^` fold reads as its accumulator followed by the text of the tokens it consumed, on inputs `CaretsUnpaired` admits (the condition is needed for the parenthesised operands it reads) |
| ParserYield.ParseInOrder | CalcParser.java:21-36 | on inputs `CaretsUnpaired` admits, the tree the constructor keeps reads as a prefix of the reading of the whole input, and as all of it when there is no message |
| ParserReads.ExpressionReads | CalcParser.java:73-82 | on every input, the symbols of the tree `parseExpression()` builds are those of the text of the tokens it consumed, each as often |
| ParserReads.ExpressionLoopReads | CalcParser.java:76-82 | on every input, the `#` loop's tree holds the symbols of its accumulator and of the text of the tokens the loop consumed |
| ParserReads.AddExpReads | CalcParser.java:91-102 | on every input, the symbols of the tree `parseAddExp()` builds are those of the text of the tokens it consumed |
| ParserReads.AddExpLoopReads | CalcParser.java:94-102 | on every input, the `+`/`-` loop's tree holds the symbols of its accumulator and of the text of the tokens the loop consumed |
| ParserReads.MulexpReads | CalcParser.java:111-124 | on every input, the symbols of the tree `parseMulexp()` builds are those of the text of the tokens it consumed |
| ParserReads.MulexpLoopReads | CalcParser.java:114-124 | on every input, the `*`/`/` loop's tree holds the symbols of its accumulator and of the text of the tokens the loop consumed |
| ParserReads.ExponentexpReads | CalcParser.java:133-150 | on every input, `^` chains and repairs included, the symbols of the tree `parseExponentexp()` builds are those of the text of the tokens it consumed |
| ParserReads.ExponentexpLoopReads | CalcParser.java:135-150 | on every input, whatever the counter and the repairs, the `^` loop's tree holds the symbols of its accumulator and of the text of the tokens the loop consumed |
| ParserReads.RootexpReads | CalcParser.java:159-171 | a number tree holds the number's printed value; a parenthesised tree holds the symbols of the expression inside |
| ParserReads.RepairKeepsSymbols | CalcParser.java:139-146 | the swap and the rotation keep the symbols of the new `^` node, each as often |
| ParserReads.ParseReads | CalcParser.java:21-36 | on every input, the tree the constructor keeps holds symbols of the reading of the whole input, each at most as often, and exactly those when there is no message |
| ParserGrouping.RepairGrouped | CalcParser.java:139-146 | the swap and the rotation turn a `^` node over numbers and `^` nodes into another such node |
| ParserGrouping.RootexpGrouped | CalcParser.java:159-171 | without `(` in the input, `parseRootexp()` succeeds only on a number, giving a leaf |
| ParserGrouping.ExpressionGrouped | CalcParser.java:73-82 | without `(` in the input, the tree `parseExpression()` builds is grouped by level |
| ParserGrouping.ExpressionLoopGrouped | CalcParser.java:76-82 | without `(`, the `#` loop keeps the tree grouped: each `#` node has a left operand of any level and a right operand of level `+ -` or tighter |
| ParserGrouping.AddExpGrouped | CalcParser.java:91-102 | without `(`, the tree `parseAddExp()` builds is grouped and of level `+ -` or tighter |
| ParserGrouping.AddExpLoopGrouped | CalcParser.java:94-102 | without `(`, the `+`/`-` loop keeps the tree grouped and of level `+ -` or tighter: each new node's right operand is of level `* /` or tighter, so `+` and `-` fold from the left |
| ParserGrouping.MulexpGrouped | CalcParser.java:111-124 | without `(`, the tree `parseMulexp()` builds is grouped and of level `* /` or tighter |
| ParserGrouping.MulexpLoopGrouped | CalcParser.java:114-124 | without `(`, the `*`/`/` loop keeps the tree grouped and of level `* /` or tighter: each new node's right operand is a number or a `^` node, so `*` and `/` fold from the left |
| ParserGrouping.ExponentexpGrouped | CalcParser.java:133-150 | without `(`, the tree `parseExponentexp()` builds is a number or a `^` node over numbers and `^` nodes |
| ParserGrouping.ExponentexpLoopGrouped | CalcParser.java:135-150 | without `(`, the `^` loop, repairs included, keeps a number or a `^` node over numbers and `^` nodes |
| ParserGrouping.ParseGrouped | CalcParser.java:21-36 | on an input without `(`, the tree the constructor keeps is grouped by level |
| TestVectors.PowerChainOfThree | TestInterpreter.java:5 | `2^3^2` parses, with no message, to `2^(3^2)` |
| TestVectors.MixedPrecedence | TestInterpreter.java:7 | `2+3*2^2` parses to `2+(3*(2^2))` |
| TestVectors.MaximumOfPowers | TestInterpreter.java:11 | `2^1^2#3^1` parses to `(2^(1^2))#(3^1)` |
| TestVectors.PowerChainOfFour | CalcParser.java:139-146 | `2^3^2^2` parses to `((3^2)^2)^2` |
| TestVectors.GroupedPower | CalcParser.java:139-146 | `2^(3)^2` parses to `(2^3)^2` |
| TestVectors.DifferenceGroupsLeft | CalcParser.java:91-102 | `1-2-3` parses to `(1-2)-3` |
| ErrorVectors.EmptyInput | CalcParser.java:167-168 | the empty input leaves no tree and the missing-operand message |
| ErrorVectors.DanglingOperator | CalcParser.java:167-168 | `2+` leaves no tree and the missing-operand message |
| ErrorVectors.UnclosedParenthesis | CalcParser.java:61-63 | `(2` leaves no tree and `Parse error: Expected a ).` |
| ErrorVectors.TrailingText | CalcParser.java:29-31 | `2)` keeps the tree `2` with `Unexpected text after the expression.` |
| ErrorVectors.MalformedNumber | CalcLexer.java:82-88 | `2.3.4`, when `valueOf` rejects it, leaves no tree and the illegal-number message |
| ErrorVectors.SpaceJoinsRuns | CalcLexer.java:48 | `2 3` is one raw token, and when `valueOf` rejects it the input fails with the illegal-number message |
| ErrorVectors.LeadingSpaceHidesNumber | CalcLexer.java:78-81 | ` 2` is one raw token beginning with white space, skipped whole, so the parse fails with the missing-operand message |

## Left out

- The `println` calls are left out: "token count" at CalcLexer.java:54, and
  the token and white-space lines at CalcLexer.java:76 and 79. The message
  printed at CalcParser.java:33 is kept as the `message` field of
  `Parser.CalcParser` instead.
- `Double.valueOf` and `Double.toString` (CalcLexer.java:84,
  CalcParser.java:166) are not defined. They are the parameter
  `Lexer.Doubles`. Floating-point values are `real`.
- `StringTokenizer.countTokens()` is used only in the `println` and is not
  modelled.
- Lexer.IsNumberLike, Lexer.Classified: `s.length() > 1` at CalcLexer.java:82
  counts UTF-16 units, and the model counts Unicode scalar values. A lone
  character outside the Basic Multilingual Plane (such as U+1F600) is two
  units in Java. Java sends it to `Double.valueOf` and fails with `Lexer
  error: Illegal format for a number`. In the model it is a one-character
  symbol token, and the parser fails with the missing-operand message.
- ParserYield.ExpressionInOrder, ParserYield.ExpressionLoopInOrder,
  ParserYield.AddExpInOrder, ParserYield.AddExpLoopInOrder,
  ParserYield.MulexpInOrder, ParserYield.MulexpLoopInOrder,
  ParserYield.ExponentexpInOrder, ParserYield.ExponentexpLoopInOrder,
  ParserYield.RootexpInOrder, ParserYield.NaiveLoopInOrder,
  ParserYield.ParseInOrder: input order is proved only on inputs that
  `CaretsUnpaired` admits. Among the operator and parenthesis tokens, no `^`
  may be followed directly by another `^`. This excludes every chain
  `a^b^c`, among them `2^3^2` and `2^1^2#3^1` of TestInterpreter.java:5 and
  TestInterpreter.java:11. Every level needs the condition, because a
  parenthesised operand can hold a chain. When the repair fires it does move
  operands (see `TestVectors.PowerChainOfFour`). On every input the model
  proves `ParserReads.ParseReads`: the tree holds the symbols of the tokens
  read, each as often as read, in some order. For the two test inputs the
  vectors give the whole tree.
- ParserGrouping.ExpressionGrouped, ParserGrouping.ExpressionLoopGrouped,
  ParserGrouping.AddExpGrouped, ParserGrouping.AddExpLoopGrouped,
  ParserGrouping.MulexpGrouped, ParserGrouping.MulexpLoopGrouped,
  ParserGrouping.ExponentexpGrouped, ParserGrouping.ExponentexpLoopGrouped,
  ParserGrouping.ParseGrouped: grouping by level is proved only for inputs
  without `(`. A parenthesised operand is a subtree of any level (`(1-2)*3`),
  and its parentheses leave no trace in the tree.
- Lexer.IsDigit: `Character.isDigit` is restricted to the ASCII digits. Java
  also accepts other Unicode decimal digits.
- Lexer.IsWhitespace: the model works on Unicode scalar values, while Java
  tests one UTF-16 unit. Surrogate pairs are not modelled.
- Parser.MatchError: the message for a character token converts the token
  with `(char)`. The model accepts only tokens the parser actually passes to
  `match` (the two markers and character codes), so it has no truncation.
- Lexer.CalcLexer.Advance: after a failed `advance()` the Java object keeps
  being read only for its exception. The model states the fields after the
  failure but proves nothing further from them.
- The `ParseTree` wrapper (CalcParser.java:15, 29) is not part of this
  model. `ast` holds the `TreeNode` it would wrap, as `Option` for Java's
  `null`.
- `CalcError` is not part of this model. It is a failure carrying its message
  string (`Result.Failure`).
- TestInterpreter.java's evaluator of trees is not modelled. Its vectors are
  stated as the trees the parser builds. The other inputs of
  TestInterpreter.java:6-14 are not given vectors.
- Running out of Java stack on deep nesting is not modelled. Recursion here
  is unbounded.
