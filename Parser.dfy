/**
 * The parser behind Group::fromString: a token list and the caller's value
 * list become a tree of AND/OR groups whose leaves each take the front value.
 *
 * Grammar, one level at a time:
 *   level := item (op item)*      item := clause | '(' level ')'
 * A level's type is the first operator seen, AND when there is none. When the
 * operator changes, the item just read and everything after the operator up
 * to the end of the level form a nested group of the new type, which becomes
 * the level's last item ("a AND b OR c" gives AND(a, OR(b, c))).
 */
module Parser {
  import opened Wrappers
  import opened QueryTree
  import opened Lexer

  datatype ParseError =
    | UnexpectedEnd              // a clause or '(' was expected, the input ended
    | ExpectedOperand(at: nat)   // an operator or ')' stands where a clause or '(' belongs
    | ExpectedOperator(at: nat)  // two operands follow each other without AND/OR
    | MissingClose(at: nat)      // the '(' at this position is never closed
    | UnexpectedClose(at: nat)   // a ')' without a matching '('

  /** A parsed node, the position after it and the values not yet consumed. */
  datatype Parsed = Parsed(node: Node, next: nat, rest: seq<Value>)

  /** a is what remains of b after removing a prefix. */
  predicate IsSuffix<T(==)>(a: seq<T>, b: seq<T>)
  {
    |a| <= |b| && a == b[|b| - |a|..]
  }

  function OperatorType(t: Token): GroupType
    requires t.AndOp? || t.OrOp?
  {
    if t.AndOp? then TypeAnd else TypeOr
  }

  /** One operand at pos: a clause becomes a leaf that shifts one value; '(' a nested group. */
  function ParseItem(toks: seq<Token>, pos: nat, vals: seq<Value>): (r: Result<Parsed, ParseError>)
    requires pos <= |toks|
    ensures r.Ok? ==> pos < r.value.next <= |toks|
    decreases |toks| - pos, 0
  {
    if pos == |toks| then Err(UnexpectedEnd)
    else match toks[pos]
      case Clause(text) =>
        var (e, rest) := NewLeaf(text, vals);
        Ok(Parsed(Leaf(e), pos + 1, rest))
      case Open =>
        (match ParseLevel(toks, pos + 1, None, [], vals)
         case Err(err) => Err(err)
         case Ok(Parsed(g, q, rest)) =>
           if q < |toks| then Ok(Parsed(g, q + 1, rest)) else Err(MissingClose(pos)))
      case _ => Err(ExpectedOperand(pos))
  }

  /**
   * The rest of a level from pos, given its type so far (None before the
   * first operator) and the items already read. It stops before a ')' or at
   * the end of the tokens.
   */
  function ParseLevel(toks: seq<Token>, pos: nat, kind: Option<GroupType>, items: seq<Node>,
                      vals: seq<Value>): (r: Result<Parsed, ParseError>)
    requires pos <= |toks|
    ensures r.Ok? ==> pos < r.value.next <= |toks|
    ensures r.Ok? ==> r.value.next == |toks| || toks[r.value.next] == Close
    ensures r.Ok? ==> r.value.node.Group? && r.value.node.items != []
    decreases |toks| - pos, 1
  {
    match ParseItem(toks, pos, vals)
    case Err(err) => Err(err)
    case Ok(first) => ParseAfter(toks, kind, items, first)
  }

  /**
   * What follows an item of a level: the end of the level, or an operator and
   * the next item. A changed operator opens the nested group described above.
   */
  function ParseAfter(toks: seq<Token>, kind: Option<GroupType>, items: seq<Node>, last: Parsed)
    : (r: Result<Parsed, ParseError>)
    requires last.next <= |toks|
    ensures r.Ok? ==> last.next <= r.value.next <= |toks|
    ensures r.Ok? ==> r.value.next == |toks| || toks[r.value.next] == Close
    ensures r.Ok? ==> r.value.node.Group? && r.value.node.items != []
    decreases |toks| - last.next, 2
  {
    var Parsed(item, p, rest) := last;
    if p == |toks| || toks[p] == Close then
      Ok(Parsed(Group(if kind.Some? then kind.value else TypeAnd, items + [item]), p, rest))
    else if toks[p].AndOp? || toks[p].OrOp? then
      var k := OperatorType(toks[p]);
      if kind.None? || kind == Some(k) then
        ParseLevel(toks, p + 1, Some(k), items + [item], rest)
      else
        Nest(kind.value, items, ParseLevel(toks, p + 1, Some(k), [item], rest))
    else Err(ExpectedOperator(p))
  }

  /**
   * The group of type kind whose items are items followed by the parsed
   * subgroup: it fails exactly when the subgroup fails, stops where the
   * subgroup stops, consumes no further value, and its leaves are those of
   * items followed by those of the subgroup.
   */
  function Nest(kind: GroupType, items: seq<Node>, sub: Result<Parsed, ParseError>): (r: Result<Parsed, ParseError>)
    ensures r.Ok? <==> sub.Ok?
    ensures r.Ok? ==> r.value.node.Group? && r.value.node.kind == kind
    ensures r.Ok? ==> r.value.next == sub.value.next && r.value.rest == sub.value.rest
    ensures r.Ok? ==> Leaves(r.value.node) == LeavesOf(items) + Leaves(sub.value.node)
  {
    match sub
    case Err(err) => Err(err)
    case Ok(Parsed(node, q, rest)) =>
      LeavesOfAppend(items, node);
      Ok(Parsed(Group(kind, items + [node]), q, rest))
  }

  // One step of the parser at a time.

  lemma ClauseItem(toks: seq<Token>, pos: nat, vals: seq<Value>)
    requires pos < |toks| && toks[pos].Clause?
    ensures ParseItem(toks, pos, vals) ==
            Ok(Parsed(Leaf(Expr(Some(toks[pos].text), Head(vals), [])), pos + 1, Drop(vals, 1)))
  {
    ShiftIsHeadDrop(vals);
  }

  lemma OpenItem(toks: seq<Token>, pos: nat, vals: seq<Value>, inner: Parsed)
    requires pos < |toks| && toks[pos] == Open
    requires ParseLevel(toks, pos + 1, None, [], vals) == Ok(inner) && inner.next < |toks|
    ensures ParseItem(toks, pos, vals) == Ok(Parsed(inner.node, inner.next + 1, inner.rest))
  {
  }

  /** A parenthesised operand that parses: its level parses and stops at the matching ')'. */
  lemma OpenItemParsed(toks: seq<Token>, pos: nat, vals: seq<Value>)
    requires pos < |toks| && toks[pos] == Open && ParseItem(toks, pos, vals).Ok?
    ensures ParseLevel(toks, pos + 1, None, [], vals).Ok?
    ensures var inner := ParseLevel(toks, pos + 1, None, [], vals).value;
            && inner.next < |toks| && toks[inner.next] == Close
            && ParseItem(toks, pos, vals).value == Parsed(inner.node, inner.next + 1, inner.rest)
  {
  }

  /** A clause operand: a leaf that takes the front value. */
  lemma ClauseItemParsed(toks: seq<Token>, pos: nat, vals: seq<Value>)
    requires pos < |toks| && toks[pos].Clause?
    ensures ParseItem(toks, pos, vals).Ok?
    ensures ParseItem(toks, pos, vals).value ==
            Parsed(Leaf(Expr(Some(toks[pos].text), Head(vals), [])), pos + 1, Drop(vals, 1))
  {
    ClauseItem(toks, pos, vals);
  }

  lemma LevelAtEnd(toks: seq<Token>, pos: nat, kind: Option<GroupType>, items: seq<Node>, vals: seq<Value>,
                   last: Parsed)
    requires pos <= |toks| && ParseItem(toks, pos, vals) == Ok(last)
    requires last.next == |toks| || toks[last.next] == Close
    ensures ParseLevel(toks, pos, kind, items, vals) ==
            Ok(Parsed(Group(if kind.Some? then kind.value else TypeAnd, items + [last.node]), last.next, last.rest))
  {
  }

  lemma LevelSameOperator(toks: seq<Token>, pos: nat, kind: Option<GroupType>, items: seq<Node>,
                          vals: seq<Value>, last: Parsed)
    requires pos <= |toks| && ParseItem(toks, pos, vals) == Ok(last)
    requires last.next < |toks| && (toks[last.next].AndOp? || toks[last.next].OrOp?)
    requires kind.None? || kind == Some(OperatorType(toks[last.next]))
    ensures ParseLevel(toks, pos, kind, items, vals) ==
            ParseLevel(toks, last.next + 1, Some(OperatorType(toks[last.next])), items + [last.node], last.rest)
  {
    assert ParseLevel(toks, pos, kind, items, vals) == ParseAfter(toks, kind, items, last);
  }

  lemma LevelNewOperator(toks: seq<Token>, pos: nat, kind: Option<GroupType>, items: seq<Node>,
                         vals: seq<Value>, last: Parsed)
    requires pos <= |toks| && ParseItem(toks, pos, vals) == Ok(last)
    requires last.next < |toks| && (toks[last.next].AndOp? || toks[last.next].OrOp?)
    requires kind.Some? && kind != Some(OperatorType(toks[last.next]))
    ensures ParseLevel(toks, pos, kind, items, vals) ==
            Nest(kind.value, items, ParseLevel(toks, last.next + 1, Some(OperatorType(toks[last.next])), [last.node], last.rest))
  {
    assert ParseLevel(toks, pos, kind, items, vals) == ParseAfter(toks, kind, items, last);
  }

  /** A whole token list: one top-level group, and no ')' left over. */
  function ParseTokens(toks: seq<Token>, vals: seq<Value>): Result<(Node, seq<Value>), ParseError>
  {
    match ParseLevel(toks, 0, None, [], vals)
    case Err(err) => Err(err)
    case Ok(Parsed(root, q, rest)) => if q < |toks| then Err(UnexpectedClose(q)) else Ok((root, rest))
  }

  /** Group::fromString on a query string and the caller's value list. */
  function Parse(s: string, vals: seq<Value>): Result<(Node, seq<Value>), ParseError>
  {
    ParseTokens(Lex(s), vals)
  }

  // ---------------------------------------------------------------------
  // Leaves and value binding

  /** The leaves of a tree, left to right. */
  function Leaves(n: Node): seq<Expr>
    decreases n
  {
    match n
    case Leaf(e) => [e]
    case Group(_, items) => LeavesOf(items)
  }

  function LeavesOf(items: seq<Node>): seq<Expr>
    decreases items
  {
    if items == [] then [] else Leaves(items[0]) + LeavesOf(items[1..])
  }

  /** The value list after n shifts. */
  function Drop(vals: seq<Value>, n: nat): seq<Value>
  {
    if n <= |vals| then vals[n..] else []
  }

  /** The front value of the list, null when it is empty. */
  function Head(vals: seq<Value>): Option<Value>
  {
    if vals == [] then None else Some(vals[0])
  }

  lemma ShiftIsHeadDrop(vals: seq<Value>)
    ensures Shift(vals) == (Head(vals), Drop(vals, 1))
  {
  }

  /** What the i-th shift takes off vals: the value at position i, null once the list has run out. */
  function ValueAt(vals: seq<Value>, i: nat): Option<Value>
  {
    if i < |vals| then Some(vals[i]) else None
  }

  /** After i shifts, the next one returns the value at position i. */
  lemma HeadDrop(vals: seq<Value>, i: nat)
    ensures Head(Drop(vals, i)) == ValueAt(vals, i)
  {
  }

  /**
   * The leaves the clause texts become when each shifts one value off vals in
   * turn: leaf i carries text i and what the i-th shift returns.
   */
  function Bind(texts: seq<string>, vals: seq<Value>): seq<Expr>
  {
    seq(|texts|, i requires 0 <= i < |texts| => Expr(Some(texts[i]), ValueAt(vals, i), []))
  }

  lemma BindSingle(text: string, vals: seq<Value>)
    ensures Bind([text], vals) == [Expr(Some(text), Head(vals), [])]
  {
    assert Bind([text], vals)[0] == Expr(Some(text), Head(vals), []);
  }

  lemma {:induction false} LeavesOfAppend(items: seq<Node>, n: Node)
    ensures LeavesOf(items + [n]) == LeavesOf(items) + Leaves(n)
  {
    if items == [] {
      assert items + [n] == [n];
      assert LeavesOf([n]) == Leaves(n) + LeavesOf([]);
    } else {
      assert (items + [n])[0] == items[0] && (items + [n])[1..] == items[1..] + [n];
      LeavesOfAppend(items[1..], n);
    }
  }

  lemma LeavesOfSingle(n: Node)
    ensures LeavesOf([n]) == Leaves(n)
  {
    assert [n][0] == n && [n][1..] == [];
    assert Leaves(n) + [] == Leaves(n);
  }

  lemma ConcatAssoc<T>(a: seq<T>, b: seq<T>, c: seq<T>)
    ensures a + b + c == a + (b + c)
  {
  }

  lemma DropDrop(vals: seq<Value>, m: nat, n: nat)
    ensures Drop(Drop(vals, m), n) == Drop(vals, m + n)
  {
  }

  /** Binding two runs of texts in turn: the second run starts where the first left the list. */
  lemma BindConcat(a: seq<string>, b: seq<string>, vals: seq<Value>)
    ensures Bind(a + b, vals) == Bind(a, vals) + Bind(b, Drop(vals, |a|))
  {
    var l, r := Bind(a + b, vals), Bind(a, vals) + Bind(b, Drop(vals, |a|));
    forall i | 0 <= i < |l| ensures l[i] == r[i] {
      if i >= |a| {
        assert ValueAt(Drop(vals, |a|), i - |a|) == ValueAt(vals, i);
      }
    }
  }

  // ---------------------------------------------------------------------
  // Consumption: every clause becomes one leaf and takes one value, in order

  /** Parentheses contribute no clause to the span they enclose. */
  lemma ParenSpanClauses(toks: seq<Token>, pos: nat, q: nat)
    requires pos < q < |toks| && toks[pos] == Open && toks[q] == Close
    ensures ClausesIn(toks, pos, q + 1) == ClausesIn(toks, pos + 1, q)
  {
    ClausesInSplit(toks, pos + 1, q, q + 1);
    ClausesInOne(toks, q);
  }

  lemma {:induction false} ParseItemBinds(toks: seq<Token>, pos: nat, vals: seq<Value>)
    requires pos <= |toks| && ParseItem(toks, pos, vals).Ok?
    ensures var Parsed(node, next, rest) := ParseItem(toks, pos, vals).value;
            var texts := ClausesIn(toks, pos, next);
            Leaves(node) == Bind(texts, vals) && rest == Drop(vals, |texts|)
    decreases |toks| - pos, 1
  {
    if toks[pos].Clause? {
      ClauseItemBinds(toks, pos, vals);
    } else {
      assert toks[pos] == Open;
      OpenItemBinds(toks, pos, vals);
    }
  }

  lemma ClauseItemBinds(toks: seq<Token>, pos: nat, vals: seq<Value>)
    requires pos < |toks| && toks[pos].Clause?
    ensures ParseItem(toks, pos, vals).Ok?
    ensures var Parsed(node, next, rest) := ParseItem(toks, pos, vals).value;
            var texts := ClausesIn(toks, pos, next);
            Leaves(node) == Bind(texts, vals) && rest == Drop(vals, |texts|)
  {
    ClauseItemParsed(toks, pos, vals);
    ClausesInOne(toks, pos);
    BindSingle(toks[pos].text, vals);
  }

  lemma {:induction false} OpenItemBinds(toks: seq<Token>, pos: nat, vals: seq<Value>)
    requires pos < |toks| && toks[pos] == Open && ParseItem(toks, pos, vals).Ok?
    ensures var Parsed(node, next, rest) := ParseItem(toks, pos, vals).value;
            var texts := ClausesIn(toks, pos, next);
            Leaves(node) == Bind(texts, vals) && rest == Drop(vals, |texts|)
    decreases |toks| - pos, 0
  {
    OpenItemParsed(toks, pos, vals);
    var inner := ParseLevel(toks, pos + 1, None, [], vals).value;
    FreshLevelBinds(toks, pos + 1, vals);
    var ti := ClausesIn(toks, pos + 1, inner.next);
    ParenSpanClauses(toks, pos, inner.next);
    var it := ParseItem(toks, pos, vals).value;
    assert it.node == inner.node && it.next == inner.next + 1 && it.rest == inner.rest;
    assert ClausesIn(toks, pos, it.next) == ti;
    assert Leaves(it.node) == Bind(ti, vals) && it.rest == Drop(vals, |ti|);
  }

  /** A level that starts without items: its leaves are exactly its clauses, bound in order. */
  lemma {:induction false} FreshLevelBinds(toks: seq<Token>, pos: nat, vals: seq<Value>)
    requires pos <= |toks| && ParseLevel(toks, pos, None, [], vals).Ok?
    ensures var Parsed(node, next, rest) := ParseLevel(toks, pos, None, [], vals).value;
            var texts := ClausesIn(toks, pos, next);
            Leaves(node) == Bind(texts, vals) && rest == Drop(vals, |texts|)
    decreases |toks| - pos, 3
  {
    ParseLevelBinds(toks, pos, None, [], vals);
    assert LeavesOf([]) == [];
  }

  lemma {:induction false} ParseLevelBinds(toks: seq<Token>, pos: nat, kind: Option<GroupType>,
                                           items: seq<Node>, vals: seq<Value>)
    requires pos <= |toks| && ParseLevel(toks, pos, kind, items, vals).Ok?
    ensures var Parsed(node, next, rest) := ParseLevel(toks, pos, kind, items, vals).value;
            var texts := ClausesIn(toks, pos, next);
            Leaves(node) == LeavesOf(items) + Bind(texts, vals) && rest == Drop(vals, |texts|)
    decreases |toks| - pos, 2
  {
    var first := ParseItem(toks, pos, vals).value;
    var after := ParseAfter(toks, kind, items, first);
    assert ParseLevel(toks, pos, kind, items, vals) == after;
    var p, q := first.next, after.value.next;
    ParseItemBinds(toks, pos, vals);
    ParseAfterBinds(toks, kind, items, first);
    var t1, t2 := ClausesIn(toks, pos, p), ClausesIn(toks, p, q);
    var b1, b2 := Bind(t1, vals), Bind(t2, first.rest);
    assert Leaves(first.node) == b1 && first.rest == Drop(vals, |t1|);
    assert Leaves(after.value.node) == LeavesOf(items) + b1 + b2;
    assert after.value.rest == Drop(first.rest, |t2|);
    ClausesInSplit(toks, pos, p, q);
    BindConcat(t1, t2, vals);
    assert Bind(t1 + t2, vals) == b1 + b2;
    DropDrop(vals, |t1|, |t2|);
    ConcatAssoc(LeavesOf(items), b1, b2);
  }

  lemma {:induction false} ParseAfterBinds(toks: seq<Token>, kind: Option<GroupType>, items: seq<Node>, last: Parsed)
    requires last.next <= |toks| && ParseAfter(toks, kind, items, last).Ok?
    ensures var Parsed(node, next, rest) := ParseAfter(toks, kind, items, last).value;
            var texts := ClausesIn(toks, last.next, next);
            && Leaves(node) == LeavesOf(items) + Leaves(last.node) + Bind(texts, last.rest)
            && rest == Drop(last.rest, |texts|)
    decreases |toks| - last.next, 3
  {
    var Parsed(item, p, rest1) := last;
    var after := ParseAfter(toks, kind, items, last).value;
    if p == |toks| || toks[p] == Close {
      assert after == Parsed(Group(if kind.Some? then kind.value else TypeAnd, items + [item]), p, rest1);
      CloseBinds(toks, p, if kind.Some? then kind.value else TypeAnd, items, item, rest1);
    } else {
      var k := OperatorType(toks[p]);
      var same := kind.None? || kind == Some(k);
      var start := if same then items + [item] else [item];
      var sub := ParseLevel(toks, p + 1, Some(k), start, rest1).value;
      ParseLevelBinds(toks, p + 1, Some(k), start, rest1);
      OperatorSpanClauses(toks, p, sub.next);
      var b2 := Bind(ClausesIn(toks, p + 1, sub.next), rest1);
      if same {
        assert after == sub;
        LeavesOfAppend(items, item);
        ConcatAssoc(LeavesOf(items), Leaves(item), b2);
      } else {
        assert after.next == sub.next && after.rest == sub.rest;
        assert Leaves(after.node) == LeavesOf(items) + Leaves(sub.node);
        LeavesOfSingle(item);
        ConcatAssoc(LeavesOf(items), Leaves(item), b2);
      }
    }
  }

  /** A level that ends right after its last item binds nothing more. */
  lemma CloseBinds(toks: seq<Token>, p: nat, kind: GroupType, items: seq<Node>, item: Node, rest: seq<Value>)
    requires p <= |toks|
    ensures Leaves(Group(kind, items + [item])) == LeavesOf(items) + Leaves(item) + Bind(ClausesIn(toks, p, p), rest)
    ensures rest == Drop(rest, |ClausesIn(toks, p, p)|)
  {
    LeavesOfAppend(items, item);
    assert Bind([], rest) == [];
  }

  /** An operator token contributes no clause to the span it starts. */
  lemma OperatorSpanClauses(toks: seq<Token>, p: nat, q: nat)
    requires p < q <= |toks| && (toks[p].AndOp? || toks[p].OrOp?)
    ensures ClausesIn(toks, p, q) == ClausesIn(toks, p + 1, q)
  {
  }

  /**
   * A successful parse has one leaf per clause, in order: leaf i carries the
   * text of clause i and the value at position i of the list (null once the
   * list has run out), and the list loses one value per clause.
   */
  lemma ParseTokensBinds(toks: seq<Token>, vals: seq<Value>)
    requires ParseTokens(toks, vals).Ok?
    ensures var (root, rest) := ParseTokens(toks, vals).value;
            Leaves(root) == Bind(Clauses(toks), vals) && rest == Drop(vals, |Clauses(toks)|)
  {
    ParseLevelBinds(toks, 0, None, [], vals);
    ClausesInAll(toks);
  }

  lemma {:induction false} OnePlaceholderEach(texts: seq<string>)
    requires forall t :: t in texts ==> Placeholders(t) == 1
    ensures TotalPlaceholders(texts) == |texts|
  {
    if texts != [] {
      assert texts[0] in texts;
      forall t | t in texts[1..] ensures Placeholders(t) == 1 {
        assert t in texts;
      }
      OnePlaceholderEach(texts[1..]);
    }
  }

  /**
   * When every clause holds exactly one `?`, parsing consumes one value per
   * placeholder of the query string, binds them left to right, and a list as
   * long as the placeholder count ends empty.
   */
  lemma ParseConsumesOneValuePerPlaceholder(s: string, vals: seq<Value>)
    requires Parse(s, vals).Ok?
    requires forall t :: t in Clauses(Lex(s)) ==> Placeholders(t) == 1
    ensures var (root, rest) := Parse(s, vals).value;
            && |Leaves(root)| == Placeholders(s)
            && rest == Drop(vals, Placeholders(s))
            && (|vals| == Placeholders(s) ==> rest == [])
            && forall i :: 0 <= i < |Leaves(root)| ==> Leaves(root)[i].value == ValueAt(vals, i)
  {
    var toks := Lex(s);
    var texts := Clauses(toks);
    ParseTokensBinds(toks, vals);
    LexKeepsPlaceholders(s);
    OnePlaceholderEach(texts);
  }

  // ---------------------------------------------------------------------
  // Parentheses

  /** The parentheses of toks close properly, starting at nesting depth d. */
  predicate BalancedFrom(toks: seq<Token>, d: nat)
  {
    if toks == [] then d == 0
    else if toks[0] == Open then BalancedFrom(toks[1..], d + 1)
    else if toks[0] == Close then d > 0 && BalancedFrom(toks[1..], d - 1)
    else BalancedFrom(toks[1..], d)
  }

  predicate Balanced(toks: seq<Token>)
  {
    BalancedFrom(toks, 0)
  }

  lemma {:induction false} BalancedStep(t: Token, r: seq<Token>, d: nat)
    ensures BalancedFrom([t] + r, d) ==
            if t == Open then BalancedFrom(r, d + 1)
            else if t == Close then d > 0 && BalancedFrom(r, d - 1)
            else BalancedFrom(r, d)
  {
    assert ([t] + r)[0] == t && ([t] + r)[1..] == r;
  }

  lemma SpanSplit(toks: seq<Token>, a: nat, b: nat, c: nat, r: seq<Token>)
    requires a <= b <= c <= |toks|
    ensures toks[a..c] + r == toks[a..b] + (toks[b..c] + r)
  {
    assert toks[a..c] == toks[a..b] + toks[b..c];
  }

  /** A token other than a parenthesis leaves the depth alone. */
  lemma OneTokenNeutral(toks: seq<Token>, p: nat, r: seq<Token>, d: nat)
    requires p < |toks| && toks[p] != Open && toks[p] != Close
    ensures BalancedFrom(toks[p..p + 1] + r, d) == BalancedFrom(r, d)
  {
    assert toks[p..p + 1] == [toks[p]];
    BalancedStep(toks[p], r, d);
  }

  /** '(' and ')' around a span that is neutral one level deeper. */
  lemma ParenNeutral(toks: seq<Token>, pos: nat, q: nat, r: seq<Token>, d: nat)
    requires pos < q < |toks| && toks[pos] == Open && toks[q] == Close
    requires BalancedFrom(toks[pos + 1..q] + ([Close] + r), d + 1) == BalancedFrom([Close] + r, d + 1)
    ensures BalancedFrom(toks[pos..q + 1] + r, d) == BalancedFrom(r, d)
  {
    SpanSplit(toks, pos, pos + 1, q + 1, r);
    SpanSplit(toks, pos + 1, q, q + 1, r);
    assert toks[pos..pos + 1] == [Open] && toks[q..q + 1] == [Close];
    BalancedStep(Open, toks[pos + 1..q + 1] + r, d);
    BalancedStep(Close, r, d + 1);
  }

  /** What an operand spans leaves the nesting depth as it was. */
  lemma {:induction false} ParseItemNeutral(toks: seq<Token>, pos: nat, vals: seq<Value>,
                                            r: seq<Token>, d: nat)
    requires pos <= |toks| && ParseItem(toks, pos, vals).Ok?
    ensures BalancedFrom(toks[pos..ParseItem(toks, pos, vals).value.next] + r, d) == BalancedFrom(r, d)
    decreases |toks| - pos, 0
  {
    if toks[pos].Clause? {
      ClauseItemParsed(toks, pos, vals);
      OneTokenNeutral(toks, pos, r, d);
    } else {
      OpenItemParsed(toks, pos, vals);
      var q := ParseLevel(toks, pos + 1, None, [], vals).value.next;
      ParseLevelNeutral(toks, pos + 1, None, [], vals, [Close] + r, d + 1);
      ParenNeutral(toks, pos, q, r, d);
    }
  }

  /** What a level spans leaves the nesting depth as it was. */
  lemma {:induction false} ParseLevelNeutral(toks: seq<Token>, pos: nat, kind: Option<GroupType>,
                                             items: seq<Node>, vals: seq<Value>, r: seq<Token>, d: nat)
    requires pos <= |toks| && ParseLevel(toks, pos, kind, items, vals).Ok?
    ensures BalancedFrom(toks[pos..ParseLevel(toks, pos, kind, items, vals).value.next] + r, d) ==
            BalancedFrom(r, d)
    decreases |toks| - pos, 1
  {
    var first := ParseItem(toks, pos, vals).value;
    var after := ParseAfter(toks, kind, items, first);
    assert ParseLevel(toks, pos, kind, items, vals) == after;
    var p, q := first.next, after.value.next;
    ParseAfterNeutral(toks, kind, items, first, r, d);
    ParseItemNeutral(toks, pos, vals, toks[p..q] + r, d);
    SpanSplit(toks, pos, p, q, r);
  }

  lemma {:induction false} ParseAfterNeutral(toks: seq<Token>, kind: Option<GroupType>, items: seq<Node>,
                                             last: Parsed, r: seq<Token>, d: nat)
    requires last.next <= |toks| && ParseAfter(toks, kind, items, last).Ok?
    ensures BalancedFrom(toks[last.next..ParseAfter(toks, kind, items, last).value.next] + r, d) ==
            BalancedFrom(r, d)
    decreases |toks| - last.next, 2
  {
    var Parsed(item, p, rest1) := last;
    var next := ParseAfter(toks, kind, items, last).value.next;
    if p == |toks| || toks[p] == Close {
      assert next == p;
      assert toks[p..p] + r == r;
    } else {
      var k := OperatorType(toks[p]);
      var same := kind.None? || kind == Some(k);
      var start := if same then items + [item] else [item];
      var sub := ParseLevel(toks, p + 1, Some(k), start, rest1);
      assert next == sub.value.next;
      ParseLevelNeutral(toks, p + 1, Some(k), start, rest1, r, d);
      SpanSplit(toks, p, p + 1, next, r);
      OneTokenNeutral(toks, p, toks[p + 1..next] + r, d);
    }
  }

  /** A token list that parses has balanced parentheses. */
  lemma ParsedIsBalanced(toks: seq<Token>, vals: seq<Value>)
    requires ParseTokens(toks, vals).Ok?
    ensures Balanced(toks)
  {
    ParseLevelNeutral(toks, 0, None, [], vals, [], 0);
    assert toks[0..|toks|] + [] == toks;
  }

  /** Unbalanced parentheses are a parse error. */
  lemma UnbalancedIsError(s: string, vals: seq<Value>)
    requires !Balanced(Lex(s))
    ensures Parse(s, vals).Err?
  {
    if Parse(s, vals).Ok? {
      ParsedIsBalanced(Lex(s), vals);
    }
  }
}
