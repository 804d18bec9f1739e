# Status.dat query groups

A Dafny model of the query-group engine of Icinga Web's status.dat query
protocol (`Icinga\Protocol\Statusdat\Query\Group`). Its behaviour is fixed
by the unit test `GroupTest` and by the leaf class that test defines,
`QueryExpressionMock`.

The engine does two things.

1. `fromString` parses a query such as
   `numeric_val >= ? AND (service_description = ? OR host_name = ?)` into a
   tree of AND/OR groups. Every clause becomes a leaf, and each new leaf
   takes the front value off the caller's value array (`array_shift` on an
   array passed by reference). Parentheses make a nested group. When the
   operator changes without parentheses, the item just read and everything
   after the operator form a nested group of the new type. So
   `a AND b OR c` gives the same tree as `a AND (b OR c)`.
2. `filter` evaluates a tree against an index sequence. A leaf keeps the
   keys of the index that are in its own match list (`array_intersect`).
   The tests fix only the resulting key lists. How a group combines its
   children is the model's own choice, since `Group.php` is not part of
   this model: an AND group narrows the index child by child, an OR group
   unions its children's results, and index order is kept.

Modules:

- `Wrappers`: `Option` and `Result`.
- `QueryTree`: the values, leaves and trees, `Filter`, and its reference
  semantics `MatchSet` (set intersection and union).
- `Lexer`: splitting a query string into clause, keyword and parenthesis
  tokens. Also the converse: a token list written out with single blanks
  is read back as the same list, which gives the token lists of the tests'
  query shapes.
- `Parser`: the recursive-descent parser as functions. Also the lemmas on
  value consumption and parenthesis balance.
- `Statusdat`: the objects the test manipulates, as classes.
  - `ValueList` is the by-reference value array.
  - `QueryExpressionMock` is the leaf.
  - `Group` has `setType`, `addItem`, `getType`, `getItems`, `filter`
    and `fromString`.

  `fromString` is written as recursive methods that build mock leaves on
  the caller's list. These methods are proved to compute what the pure
  parser computes.
- `GroupTests`: the eight test scenarios. The five parsing scenarios hold
  for all clause texts, operators and value lists. The three filter
  scenarios are stated on the tests' own match lists; the general fact
  behind them is `QueryTree.FilterIsKeep`. The tests' own data is replayed
  through the classes.

## Model

All source cells refer to `test/php/library/Icinga/Protocol/Statusdat/Query/GroupTest.php`.
The definitions the engine is made of are specified by the lemma rows
that name them: the tokenizer `Lexer.Lex` and `Lexer.LexFrom`; the parser
`Parser.Parse`, `Parser.ParseTokens`, `Parser.ParseItem`,
`Parser.ParseLevel`, `Parser.ParseAfter` and `Parser.Nest`; the filter
`QueryTree.Filter`, `QueryTree.AndFold`, `QueryTree.OrFold`,
`QueryTree.Intersect` and `QueryTree.UnionIn`; and its reference semantics
`QueryTree.MatchSet`. Where one of them carries an `ensures` of its own,
that clause is a fact its callers' proofs use; `Parser.Nest` has its own
row.

| member | source | states |
|---|---|---|
| QueryTree.Shift | test/php/library/Icinga/Protocol/Statusdat/Query/GroupTest.php:19 | `array_shift` returns null exactly when the list is empty; otherwise the list is the returned front value followed by what remains |
| QueryTree.NewLeaf | test/php/library/Icinga/Protocol/Statusdat/Query/GroupTest.php:17-21 | a new leaf keeps the clause text unchanged, has no matches, and its value and the remaining list are exactly what `array_shift` gives |
| QueryTree.Keep | test/php/library/Icinga/Protocol/Statusdat/Query/GroupTest.php:25 | reference selection: a key is in the result iff it is in the index and in the set; never longer than the index |
| QueryTree.IntersectIsKeep | test/php/library/Icinga/Protocol/Statusdat/Query/GroupTest.php:25 | `array_intersect(idx, filter)` selects, in idx order, the keys of idx that occur in the match list |
| QueryTree.KeepIsSubsequence | test/php/library/Icinga/Protocol/Statusdat/Query/GroupTest.php:23-26 | a selection is a subsequence of the index: order kept, nothing added |
| QueryTree.FilterIsKeep | test/php/library/Icinga/Protocol/Statusdat/Query/GroupTest.php:171-226 | filtering by any tree selects, in index order, exactly the keys of the tree's match set (leaf list, AND = intersection, OR = union, recursively) |
| QueryTree.AndFoldIsKeep | test/php/library/Icinga/Protocol/Statusdat/Query/GroupTest.php:171-185 | narrowing the index child by child selects the keys in every child's match set |
| QueryTree.OrFoldIsKeep | test/php/library/Icinga/Protocol/Statusdat/Query/GroupTest.php:187-200 | accumulating the children's results selects the keys in some child's match set |
| QueryTree.FilterIsSubsequence | test/php/library/Icinga/Protocol/Statusdat/Query/GroupTest.php:181-184 | what any group's filter returns is a subsequence of its base |
| QueryTree.AndFilterIsIntersection | test/php/library/Icinga/Protocol/Statusdat/Query/GroupTest.php:171-185 | a key survives an AND group iff the group has items and every child keeps it |
| QueryTree.OrFilterIsUnion | test/php/library/Icinga/Protocol/Statusdat/Query/GroupTest.php:187-200 | a key survives an OR group iff some child keeps it |
| QueryTree.AllSetMember | test/php/library/Icinga/Protocol/Statusdat/Query/GroupTest.php:171-185 | a key is in the AND match set iff it is in every child's match set |
| QueryTree.AnySetMember | test/php/library/Icinga/Protocol/Statusdat/Query/GroupTest.php:187-200 | a key is in the OR match set iff it is in some child's match set |
| QueryTree.KeepAscending | test/php/library/Icinga/Protocol/Statusdat/Query/GroupTest.php:179-184 | selecting from an ascending base such as `0..8` gives an ascending result |
| QueryTree.AscendingUnique | test/php/library/Icinga/Protocol/Statusdat/Query/GroupTest.php:181-184 | two ascending key lists with the same keys are equal, so the expected arrays are determined by their key sets |
| Lexer.ClauseEnd | test/php/library/Icinga/Protocol/Statusdat/Query/GroupTest.php:112 | a clause runs from its first word to the end of its last non-keyword word: it is nonempty, ends on a non-blank and holds no parenthesis; it stops at the end of the string or at a blank or parenthesis, and what follows (after blanks) is the end, a parenthesis or the keyword `AND` or `OR`; every word inside it is a clause word, so it runs through no `AND` or `OR` |
| Lexer.KeywordAtSpelling | test/php/library/Icinga/Protocol/Statusdat/Query/GroupTest.php:66 | the tokenizer's character-level keyword test accepts exactly the words `AND` and `OR` |
| Lexer.ClauseEndSpan | test/php/library/Icinga/Protocol/Statusdat/Query/GroupTest.php:144 | a span that starts with a non-keyword word, holds no parenthesis and no keyword word, and is followed by no further clause word is exactly the clause the tokenizer finds there |
| Lexer.LexClauseAt | test/php/library/Icinga/Protocol/Statusdat/Query/GroupTest.php:144 | a well-formed clause text standing at a position, followed by a delimiter and then no clause word, is read as one clause token with exactly that text |
| Lexer.LexKeywordAt | test/php/library/Icinga/Protocol/Statusdat/Query/GroupTest.php:144 | a whole word `AND` is read as the AND token and a whole word `OR` as the OR token |
| Lexer.LexRender | test/php/library/Icinga/Protocol/Statusdat/Query/GroupTest.php:112 | writing out any token list whose clause texts are well formed and in which no two clauses are adjacent, with one blank between tokens and none inside parentheses, and tokenizing the result gives the list back |
| Lexer.LexSingle | test/php/library/Icinga/Protocol/Statusdat/Query/GroupTest.php:47 | a well-formed clause text on its own is one clause token |
| Lexer.LexPair | test/php/library/Icinga/Protocol/Statusdat/Query/GroupTest.php:66 | `a AND b` and `a OR b` split into the clause a, the operator token and the clause b, for all well-formed clause texts |
| Lexer.LexChain | test/php/library/Icinga/Protocol/Statusdat/Query/GroupTest.php:144 | `a op1 b op2 c` splits into three clause tokens with the two operator tokens between them |
| Lexer.LexNested | test/php/library/Icinga/Protocol/Statusdat/Query/GroupTest.php:112 | `a op1 (b op2 c)` splits into the clause a, op1, an opening parenthesis, b, op2, c and a closing parenthesis |
| Lexer.LexKeepsPlaceholders | test/php/library/Icinga/Protocol/Statusdat/Query/GroupTest.php:144 | every `?` of the query string lands in exactly one clause token |
| Lexer.LexClausesWellFormed | test/php/library/Icinga/Protocol/Statusdat/Query/GroupTest.php:57 | every clause text the tokenizer yields is trimmed, nonempty, free of parentheses and has no word `AND` or `OR`, as `rawExpression` `"numeric_val >= ?"` is |
| Parser.ShiftIsHeadDrop | test/php/library/Icinga/Protocol/Statusdat/Query/GroupTest.php:19 | one `array_shift` is the front value and the list after one removal |
| Parser.HeadDrop | test/php/library/Icinga/Protocol/Statusdat/Query/GroupTest.php:19 | after i shifts the next shift returns the value at position i, or null past the end |
| Parser.Nest | test/php/library/Icinga/Protocol/Statusdat/Query/GroupTest.php:139-169 | the nested group for a changed operator fails exactly when the subgroup does, is a group of the outer type, stops where the subgroup stops without taking another value, and its leaves are the earlier items' leaves followed by the subgroup's |
| Parser.BindConcat | test/php/library/Icinga/Protocol/Statusdat/Query/GroupTest.php:110-112 | binding two runs of clauses in turn: the second run starts where the first left the list |
| Parser.ParseTokensBinds | test/php/library/Icinga/Protocol/Statusdat/Query/GroupTest.php:51-58 | any successful parse has one leaf per clause, in order, each with its clause text and the value at its position (null past the end); the list loses one value per clause |
| Parser.ParseConsumesOneValuePerPlaceholder | test/php/library/Icinga/Protocol/Statusdat/Query/GroupTest.php:52 | when every clause holds one `?`, the leaves are as many as the placeholders, take the values left to right, and a list of exactly that length ends empty |
| Parser.ParsedIsBalanced | test/php/library/Icinga/Protocol/Statusdat/Query/GroupTest.php:112 | a token list that parses has balanced parentheses |
| Parser.UnbalancedIsError | test/php/library/Icinga/Protocol/Statusdat/Query/GroupTest.php:112 | a query with unbalanced parentheses is a parse error |
| Statusdat.ValueList.Shift | test/php/library/Icinga/Protocol/Statusdat/Query/GroupTest.php:19 | the method removes the front of the list in place and returns it, exactly as `QueryTree.Shift` describes |
| Statusdat.QueryExpressionMock.constructor | test/php/library/Icinga/Protocol/Statusdat/Query/GroupTest.php:17-21 | the constructor takes the front of the caller's list as `value`, shortening that list in place, and keeps the clause text as `rawExpression` |
| Statusdat.QueryExpressionMock.Filter | test/php/library/Icinga/Protocol/Statusdat/Query/GroupTest.php:23-26 | a key is in the result iff it is in idx and in the mock's match list; the result is a subsequence of idx, and it is exactly the in-order selection `Keep` of idx by the match list |
| Statusdat.Group.constructor | test/php/library/Icinga/Protocol/Statusdat/Query/GroupTest.php:44 | a new group is an AND group without items |
| Statusdat.Group.GetType | test/php/library/Icinga/Protocol/Statusdat/Query/GroupTest.php:72 | `getType()` (also at lines 95 and 127) returns the group's type field, the one `SetType`, the constructor and `FromString` pin down |
| Statusdat.Group.GetItems | test/php/library/Icinga/Protocol/Statusdat/Query/GroupTest.php:51-54 | `getItems()` (also at lines 73 and 128) returns the group's item list, the one `AddItem`, the constructor and `FromString` pin down |
| Statusdat.Group.SetType | test/php/library/Icinga/Protocol/Statusdat/Query/GroupTest.php:174 | the type changes and the items are kept |
| Statusdat.Group.AddItem | test/php/library/Icinga/Protocol/Statusdat/Query/GroupTest.php:183 | the item is appended, the type is kept, and the group itself is returned, so calls chain |
| Statusdat.Group.Filter | test/php/library/Icinga/Protocol/Statusdat/Query/GroupTest.php:181-184 | the group's filter selects, in base order, the keys of its match set; the result is a subsequence of the base |
| Statusdat.Group.FromString | test/php/library/Icinga/Protocol/Statusdat/Query/GroupTest.php:46-52 | on success the group takes the parsed tree's type and items and the caller's list keeps exactly the values no leaf took; on error the group is unchanged and the list is a suffix of what it was |
| Statusdat.Group.FromTokens | test/php/library/Icinga/Protocol/Statusdat/Query/GroupTest.php:46-52 | the same as `FromString`, for a query already split into tokens |
| Statusdat.ParseItemM | test/php/library/Icinga/Protocol/Statusdat/Query/GroupTest.php:17-21 | the imperative operand parser builds mock leaves on the caller's list and returns what `ParseItem` computes, leaving the list at the parse's remainder |
| Statusdat.ParseLevelM | test/php/library/Icinga/Protocol/Statusdat/Query/GroupTest.php:46-50 | the imperative level parser returns what `ParseLevel` computes, leaving the list at the parse's remainder |
| Statusdat.ParseAfterM | test/php/library/Icinga/Protocol/Statusdat/Query/GroupTest.php:139-169 | the imperative continuation, including the implicit subgroup, returns what `ParseAfter` computes |
| GroupTests.SingleCondition | test/php/library/Icinga/Protocol/Statusdat/Query/GroupTest.php:42-59 | one clause gives an AND group with one leaf, with the clause text and the front value, and one value is consumed |
| GroupTests.SimpleCondition | test/php/library/Icinga/Protocol/Statusdat/Query/GroupTest.php:61-105 | `a op b` gives a group of op's type with both leaves, bound to the first and second values, and two values are consumed |
| GroupTests.PairLevel | test/php/library/Icinga/Protocol/Statusdat/Query/GroupTest.php:61-105 | a closing `clause op clause` appends both leaves to the level, in order, under op's type |
| GroupTests.ParenPairItem | test/php/library/Icinga/Protocol/Statusdat/Query/GroupTest.php:107-137 | `(b op c)` is one operand: the nested group of op's type with both leaves |
| GroupTests.ClauseOpOperand | test/php/library/Icinga/Protocol/Statusdat/Query/GroupTest.php:107-137 | `clause op operand` gives a group of op's type holding the leaf and the operand |
| GroupTests.ExplicitSubgroup | test/php/library/Icinga/Protocol/Statusdat/Query/GroupTest.php:107-137 | `a op1 (b op2 c)` gives an op1 group of the leaf a and an op2 group of b and c, bound to values 1, 2 and 3 in order, and three values are consumed |
| GroupTests.ImplicitSubgroup | test/php/library/Icinga/Protocol/Statusdat/Query/GroupTest.php:139-169 | with op1 different from op2, `a op1 b op2 c` parses to the same result as `a op1 (b op2 c)` |
| GroupTests.ClauseConstants | test/php/library/Icinga/Protocol/Statusdat/Query/GroupTest.php:47 | the tests' clause texts `numeric_val >= ?`, `host_name = ?` and `service_description = ?` are well-formed clauses |
| GroupTests.AndQueryText | test/php/library/Icinga/Protocol/Statusdat/Query/GroupTest.php:66 | the AND query is the numeric clause, ` AND ` and the host clause |
| GroupTests.OrQueryText | test/php/library/Icinga/Protocol/Statusdat/Query/GroupTest.php:89 | the OR query is the numeric clause, ` OR ` and the host clause |
| GroupTests.SimpleQueryTokens | test/php/library/Icinga/Protocol/Statusdat/Query/GroupTest.php:66-89 | `numeric_val >= ? AND host_name = ?` and `numeric_val >= ? OR host_name = ?` split into two clauses with their operator between them |
| GroupTests.ExplicitQueryTokens | test/php/library/Icinga/Protocol/Statusdat/Query/GroupTest.php:112 | the explicit-subgroup query splits into its seven tokens |
| GroupTests.ImplicitQueryTokens | test/php/library/Icinga/Protocol/Statusdat/Query/GroupTest.php:144 | the implicit-subgroup query splits into its five tokens |
| GroupTests.ParsingSingleCondition | test/php/library/Icinga/Protocol/Statusdat/Query/GroupTest.php:42-59 | `fromString("numeric_val >= ?", [4])` gives one item, with text `numeric_val >= ?` and value 4, and the value list ends empty |
| GroupTests.ParsingSimpleCondition | test/php/library/Icinga/Protocol/Statusdat/Query/GroupTest.php:61-105 | `fromString` on the AND and the OR query gives type AND and OR respectively, two items bound to 4 and `hosta` in order, and the list ends empty |
| GroupTests.ParsingExplicitSubgroup | test/php/library/Icinga/Protocol/Statusdat/Query/GroupTest.php:107-137 | `fromString` on `a AND (b OR c)` gives an AND group of the 4-leaf and an OR group of the `service1` and `hosta` leaves, and the list ends empty |
| GroupTests.ParsingImplicitSubgroup | test/php/library/Icinga/Protocol/Statusdat/Query/GroupTest.php:139-169 | `fromString` on `a AND b OR c` gives the same tree as the explicit subgroup, and the list ends empty |
| GroupTests.SelectFromBase | test/php/library/Icinga/Protocol/Statusdat/Query/GroupTest.php:179 | selecting from the base `0..8` by a set gives the ascending list of the base keys in that set |
| GroupTests.PairMatchSet | test/php/library/Icinga/Protocol/Statusdat/Query/GroupTest.php:183 | a two-item group matches the intersection (AND) or the union (OR) of its items' match sets |
| GroupTests.TripleAndMatchSet | test/php/library/Icinga/Protocol/Statusdat/Query/GroupTest.php:220-223 | a three-item AND group matches the intersection of the three match sets |
| GroupTests.AndFilterKeys | test/php/library/Icinga/Protocol/Statusdat/Query/GroupTest.php:176-184 | the base selected by `{1,2,3,4,5,6,8}` intersected with `{3,4,8}` is `[3, 4, 8]` |
| GroupTests.OrFilterKeys | test/php/library/Icinga/Protocol/Statusdat/Query/GroupTest.php:192-198 | the base selected by `{1,2,3}` united with `{3,4,6,8}` is `[1, 2, 3, 4, 6, 8]` |
| GroupTests.CombinedFilterKeys | test/php/library/Icinga/Protocol/Statusdat/Query/GroupTest.php:210-225 | the base selected by both AND lists and the OR of the other two is `[3, 4, 8]` |
| GroupTests.MockMatching | test/php/library/Icinga/Protocol/Statusdat/Query/GroupTest.php:175-176 | a mock built without arguments, its match list set afterwards, is a leaf with no text, no value and that match list |
| GroupTests.AndFilter | test/php/library/Icinga/Protocol/Statusdat/Query/GroupTest.php:171-185 | the AND group of the two mocks filters the base to `[3, 4, 8]` |
| GroupTests.OrFilter | test/php/library/Icinga/Protocol/Statusdat/Query/GroupTest.php:187-200 | the OR group of the two mocks filters the base to `[1, 2, 3, 4, 6, 8]` |
| GroupTests.CombinedFilter | test/php/library/Icinga/Protocol/Statusdat/Query/GroupTest.php:202-226 | the AND group of two mocks and the nested OR group filters the base to `[3, 4, 8]` |

## Left out

- `setQuery` (GroupTest.php:34-37) is an empty stub with nothing to model.
- The class-name argument of `fromString` (GroupTest.php:49) is not modelled. Leaves are always `QueryExpressionMock` objects, so no class is looked up and instantiated by name.
- PHP array keys are not modelled: `array_intersect` keeps the keys of its first argument, but the tests apply `array_values`, so the model uses plain sequences.
- `Group.php` is not part of this model. What the model fixes beyond the tests is its own choice:
  - a new group is of type AND;
  - an AND group without items filters to nothing;
  - the tokenizer recognises `AND` and `OR` only as whole upper-case words;
  - the error kinds and the precedence rule for more than one operator change.

  Only the shapes the tests use are pinned down by the `GroupTests` lemmas.
- On a parse error, `fromString` in PHP presumably throws. The model returns an error value instead. It states only that the caller's list is a suffix of what it was, because it depends on how far parsing got.
- The two subgroup queries, `GroupTests.ExplicitQuery` and `GroupTests.ImplicitQuery`, are written as concatenations of the clause constants and the operator texts, not as one literal each. They spell the strings of GroupTest.php:112 and :144 character for character. Proving the 61- and 63-character literals equal to their parts is beyond the verification budget.
- A mismatch between the number of `?` placeholders and the number of values is not an error in the model. GroupTest.php never passes a mismatched list, so whether `Group.php` rejects one is not known. The mock of GroupTest.php:17-21 takes exactly one value per clause, however many `?` the clause holds, and accepts a value list of any length, and the model follows the mock. `Parser.ParseConsumesOneValuePerPlaceholder` proves that the two notions agree when every clause holds exactly one `?`.
- Statusdat.Group.AddItem: the parent stores a value snapshot of the added subgroup (`Tree()`), not a reference. Later changes to the added group are not seen by the parent. In the combined test the OR group is complete before it is added, so the result is the same.
- Statusdat.Group.Filter: the root passes `base` itself to its children as the index. The mock's `filter` (GroupTest.php:23-26) reads only the index, and `Group.php` is not part of this model, so whether the engine builds the index from the values of `base` or from its keys is not known. For the tests' base `0..8` the two are the same.
- Parsed subgroups are plain tree values, not `Group` objects, so the `assertInstanceOf` checks map to the tree being a group node.
- Values are integers and strings. PHP's loose comparison in `assertEquals` is not modelled.
- `test/php/library/Icinga/Authentication/ManagerTest.php` and `test/php/library/Icinga/Web/Form/Element/DateTimePickerTest.php` are not part of this model. They depend on a session singleton, configuration objects, backend mocks and PHP's date/time library, none of which is visible.
