/**
 * The scenarios of GroupTest, stated over the model.
 *
 * The parsing scenarios are first proved for arbitrary clause texts and an
 * arbitrary value list, on the token sequence the query string splits into
 * (Lexer.LexPair, LexChain and LexNested give that sequence); the methods
 * below then replay each scenario with the query strings and values the
 * tests use, through Group.FromString and the QueryExpressionMock class.
 */
module GroupTests {
  import opened Wrappers
  import opened QueryTree
  import opened Lexer
  import opened Parser
  import opened Statusdat

  /** The leaf a clause with text t becomes when it takes value v. */
  function LeafOf(t: string, v: Option<Value>): Node
  {
    Leaf(Expr(Some(t), v, []))
  }


  // ---------------------------------------------------------------------
  // Parsing, for all clause texts and value lists

  /** One clause: an AND group holding one leaf bound to the front value. */
  lemma SingleCondition(a: string, vals: seq<Value>)
    ensures ParseTokens([Clause(a)], vals) == Ok((Group(TypeAnd, [LeafOf(a, Head(vals))]), Drop(vals, 1)))
  {
    var toks := [Clause(a)];
    var la := LeafOf(a, Head(vals));
    var first := Parsed(la, 1, Drop(vals, 1));
    ShiftIsHeadDrop(vals);
    assert ParseItem(toks, 0, vals) == Ok(first);
    assert [] + [la] == [la];
    assert ParseAfter(toks, None, [], first) == Ok(Parsed(Group(TypeAnd, [la]), 1, Drop(vals, 1)));
    assert ParseLevel(toks, 0, None, [], vals) == ParseAfter(toks, None, [], first);
  }

  /** "a op b": a group of the operator's type with both leaves, bound in order. */
  lemma SimpleCondition(a: string, op: Token, b: string, vals: seq<Value>)
    requires IsOperator(op)
    ensures ParseTokens([Clause(a), op, Clause(b)], vals) ==
            Ok((Group(OperatorType(op), [LeafOf(a, Head(vals)), LeafOf(b, Head(Drop(vals, 1)))]), Drop(vals, 2)))
  {
    PairLevel([Clause(a), op, Clause(b)], 0, None, [], vals);
    assert [] + [LeafOf(a, Head(vals)), LeafOf(b, Head(Drop(vals, 1)))] == [LeafOf(a, Head(vals)), LeafOf(b, Head(Drop(vals, 1)))];
  }

  /**
   * "clause op clause" at pos, closing its level: one group of the
   * operator's type with both leaves appended.
   */
  lemma PairLevel(toks: seq<Token>, pos: nat, kind: Option<GroupType>, items: seq<Node>, vals: seq<Value>)
    requires pos + 3 <= |toks| && toks[pos].Clause? && IsOperator(toks[pos + 1]) && toks[pos + 2].Clause?
    requires pos + 3 == |toks| || toks[pos + 3] == Close
    requires kind.None? || kind == Some(OperatorType(toks[pos + 1]))
    ensures ParseLevel(toks, pos, kind, items, vals) ==
            Ok(Parsed(Group(OperatorType(toks[pos + 1]),
                            items + [LeafOf(toks[pos].text, Head(vals)), LeafOf(toks[pos + 2].text, Head(Drop(vals, 1)))]),
                      pos + 3, Drop(vals, 2)))
  {
    var k := OperatorType(toks[pos + 1]);
    var la, lb := LeafOf(toks[pos].text, Head(vals)), LeafOf(toks[pos + 2].text, Head(Drop(vals, 1)));
    DropDrop(vals, 1, 1);
    ClauseItem(toks, pos + 2, Drop(vals, 1));
    LevelAtEnd(toks, pos + 2, Some(k), items + [la], Drop(vals, 1), Parsed(lb, pos + 3, Drop(vals, 2)));
    ClauseItem(toks, pos, vals);
    LevelSameOperator(toks, pos, kind, items, vals, Parsed(la, pos + 1, Drop(vals, 1)));
    assert items + [la] + [lb] == items + [la, lb];
  }

  /** "(clause op clause)" at pos: one operand, the group of the operator's type with both leaves. */
  lemma ParenPairItem(toks: seq<Token>, pos: nat, vals: seq<Value>)
    requires pos + 5 <= |toks| && toks[pos] == Open && toks[pos + 4] == Close
    requires toks[pos + 1].Clause? && IsOperator(toks[pos + 2]) && toks[pos + 3].Clause?
    ensures ParseItem(toks, pos, vals) ==
            Ok(Parsed(Group(OperatorType(toks[pos + 2]),
                            [LeafOf(toks[pos + 1].text, Head(vals)), LeafOf(toks[pos + 3].text, Head(Drop(vals, 1)))]),
                      pos + 5, Drop(vals, 2)))
  {
    var pair := [LeafOf(toks[pos + 1].text, Head(vals)), LeafOf(toks[pos + 3].text, Head(Drop(vals, 1)))];
    PairLevel(toks, pos + 1, None, [], vals);
    assert [] + pair == pair;
    OpenItem(toks, pos, vals, Parsed(Group(OperatorType(toks[pos + 2]), pair), pos + 4, Drop(vals, 2)));
  }

  /** "clause op operand" filling the whole token list: a group of the operator's type with both. */
  lemma ClauseOpOperand(toks: seq<Token>, vals: seq<Value>, second: Parsed)
    requires 2 <= |toks| && toks[0].Clause? && IsOperator(toks[1])
    requires ParseItem(toks, 2, Drop(vals, 1)) == Ok(second) && second.next == |toks|
    ensures ParseTokens(toks, vals) ==
            Ok((Group(OperatorType(toks[1]), [LeafOf(toks[0].text, Head(vals)), second.node]), second.rest))
  {
    var k := OperatorType(toks[1]);
    var la := LeafOf(toks[0].text, Head(vals));
    LevelAtEnd(toks, 2, Some(k), [la], Drop(vals, 1), second);
    ClauseItem(toks, 0, vals);
    LevelSameOperator(toks, 0, None, [], vals, Parsed(la, 1, Drop(vals, 1)));
    assert [] + [la] == [la] && [la] + [second.node] == [la, second.node];
  }

  /**
   * "a op1 (b op2 c)": the parenthesised part is a nested group of type op2,
   * the second item of a group of type op1.
   */
  lemma ExplicitSubgroup(a: string, op1: Token, b: string, op2: Token, c: string, vals: seq<Value>)
    requires IsOperator(op1) && IsOperator(op2)
    ensures ParseTokens([Clause(a), op1, Open, Clause(b), op2, Clause(c), Close], vals) ==
            Ok((Group(OperatorType(op1), [LeafOf(a, Head(vals)),
                      Group(OperatorType(op2), [LeafOf(b, Head(Drop(vals, 1))), LeafOf(c, Head(Drop(vals, 2)))])]),
                Drop(vals, 3)))
  {
    var toks := [Clause(a), op1, Open, Clause(b), op2, Clause(c), Close];
    var v1, v2, v3 := Drop(vals, 1), Drop(vals, 2), Drop(vals, 3);
    var la, lb, lc := LeafOf(a, Head(vals)), LeafOf(b, Head(v1)), LeafOf(c, Head(v2));
    var k1, k2 := OperatorType(op1), OperatorType(op2);
    DropDrop(vals, 1, 1);
    DropDrop(vals, 1, 2);
    var sub := Group(k2, [lb, lc]);
    ParenPairItem(toks, 2, v1);
    ClauseOpOperand(toks, vals, Parsed(sub, 7, v3));
  }

  /**
   * "a op1 b op2 c" with two different operators: b and c form a nested
   * group of type op2, the second item of a group of type op1 -- the same
   * tree as with the parentheses written out.
   */
  lemma ImplicitSubgroup(a: string, op1: Token, b: string, op2: Token, c: string, vals: seq<Value>)
    requires IsOperator(op1) && IsOperator(op2) && op1 != op2
    ensures ParseTokens([Clause(a), op1, Clause(b), op2, Clause(c)], vals) ==
            ParseTokens([Clause(a), op1, Open, Clause(b), op2, Clause(c), Close], vals)
  {
    var toks := [Clause(a), op1, Clause(b), op2, Clause(c)];
    var v1, v2, v3 := Drop(vals, 1), Drop(vals, 2), Drop(vals, 3);
    var la, lb, lc := LeafOf(a, Head(vals)), LeafOf(b, Head(v1)), LeafOf(c, Head(v2));
    var k1, k2 := OperatorType(op1), OperatorType(op2);
    assert k1 != k2;
    DropDrop(vals, 1, 1);
    DropDrop(vals, 2, 1);
    assert [] + [la] == [la] && [lb] + [lc] == [lb, lc];
    ClauseItem(toks, 4, v2);
    LevelAtEnd(toks, 4, Some(k2), [lb], v2, Parsed(lc, 5, v3));
    var sub := Group(k2, [lb, lc]);
    ClauseItem(toks, 2, v1);
    LevelNewOperator(toks, 2, Some(k1), [la], v1, Parsed(lb, 3, v2));
    assert [la] + [sub] == [la, sub];
    ClauseItem(toks, 0, vals);
    LevelSameOperator(toks, 0, None, [], vals, Parsed(la, 1, v1));
    ExplicitSubgroup(a, op1, b, op2, c, vals);
  }

  // ---------------------------------------------------------------------
  // The test scenarios, with the tests' own texts and values

  const NumericClause := "numeric_val >= ?"
  const HostClause := "host_name = ?"
  const ServiceClause := "service_description = ?"

  /** The tests' clause texts are well-formed clauses. */
  lemma ClauseConstants()
    ensures IsClauseText(NumericClause) && IsClauseText(HostClause) && IsClauseText(ServiceClause)
  {
    PlainClauseText(NumericClause);
    PlainClauseText(HostClause);
    PlainClauseText(ServiceClause);
  }

  /** The query strings of the tests. */
  const AndQuery := "numeric_val >= ? AND host_name = ?"
  const OrQuery := "numeric_val >= ? OR host_name = ?"
  const ExplicitQuery := NumericClause + " AND " + "(" + ServiceClause + " OR " + HostClause + ")"
  const ImplicitQuery := NumericClause + " AND " + ServiceClause + " OR " + HostClause

  /** The query of one of the two simple-condition tests. */
  function SimpleQuery(op: Token): string
  {
    if op == AndOp then AndQuery else OrQuery
  }

  /** The AND query is the numeric clause, AND and the host clause. */
  lemma AndQueryText()
    ensures AndQuery == NumericClause + OpText(AndOp) + HostClause
  {
    assert OpText(AndOp) == " AND ";
  }

  /** The OR query is the numeric clause, OR and the host clause. */
  lemma OrQueryText()
    ensures OrQuery == NumericClause + OpText(OrOp) + HostClause
  {
    assert OpText(OrOp) == " OR ";
  }

  /** The two simple queries split into a clause, their operator and a clause. */
  lemma SimpleQueryTokens(op: Token)
    requires IsOperator(op)
    ensures Lex(SimpleQuery(op)) == [Clause(NumericClause), op, Clause(HostClause)]
  {
    if op == AndOp {
      AndQueryText();
    } else {
      OrQueryText();
    }
    ClauseConstants();
    LexPair(NumericClause, op, HostClause);
  }

  /** "a AND (b OR c)" splits into its seven tokens. */
  lemma ExplicitQueryTokens()
    ensures Lex(ExplicitQuery) == [Clause(NumericClause), AndOp, Open, Clause(ServiceClause), OrOp, Clause(HostClause), Close]
  {
    ClauseConstants();
    LexNested(NumericClause, AndOp, ServiceClause, OrOp, HostClause);
    assert OpText(AndOp) == " AND " && OpText(OrOp) == " OR ";
  }

  /** "a AND b OR c" splits into its five tokens. */
  lemma ImplicitQueryTokens()
    ensures Lex(ImplicitQuery) == [Clause(NumericClause), AndOp, Clause(ServiceClause), OrOp, Clause(HostClause)]
  {
    ClauseConstants();
    LexChain(NumericClause, AndOp, ServiceClause, OrOp, HostClause);
    assert OpText(AndOp) == " AND " && OpText(OrOp) == " OR ";
  }

  /** testParsingSingleCondition: one leaf taking the only value, which leaves the list empty. */
  method ParsingSingleCondition() returns (items: seq<Node>, left: seq<Value>)
    ensures |items| == 1 && left == []
    ensures items[0] == LeafOf(NumericClause, Some(IntVal(4)))
  {
    var g := new Group();
    var values := new ValueList([IntVal(4)]);
    ClauseConstants();
    LexSingle(NumericClause);
    SingleCondition(NumericClause, [IntVal(4)]);
    var r := g.FromString(NumericClause, values);
    items, left := g.GetItems(), values.items;
  }

  /** testParsingSimpleAndCondition and testParsingSimpleORCondition, for op = AND and op = OR. */
  method ParsingSimpleCondition(op: Token) returns (kind: GroupType, items: seq<Node>, left: seq<Value>)
    requires IsOperator(op)
    ensures kind == (if op == AndOp then TypeAnd else TypeOr)
    ensures |items| == 2 && left == []
    ensures items[0] == LeafOf(NumericClause, Some(IntVal(4)))
    ensures items[1] == LeafOf(HostClause, Some(StrVal("hosta")))
  {
    var vals := [IntVal(4), StrVal("hosta")];
    var g := new Group();
    var values := new ValueList(vals);
    SimpleQueryTokens(op);
    SimpleCondition(NumericClause, op, HostClause, vals);
    assert Drop(vals, 1) == [StrVal("hosta")];
    var r := g.FromString(SimpleQuery(op), values);
    kind, items, left := g.GetType(), g.GetItems(), values.items;
  }

  /** The OR subgroup both subgroup tests expect as the second item. */
  function ServiceOrHost(): Node
  {
    Group(TypeOr, [LeafOf(ServiceClause, Some(StrVal("service1"))), LeafOf(HostClause, Some(StrVal("hosta")))])
  }

  /** testParsingExplicitSubgroup: "a AND (b OR c)". */
  method ParsingExplicitSubgroup() returns (kind: GroupType, items: seq<Node>, left: seq<Value>)
    ensures kind == TypeAnd && left == []
    ensures items == [LeafOf(NumericClause, Some(IntVal(4))), ServiceOrHost()]
  {
    var vals := [IntVal(4), StrVal("service1"), StrVal("hosta")];
    var g := new Group();
    var values := new ValueList(vals);
    ExplicitQueryTokens();
    ExplicitSubgroup(NumericClause, AndOp, ServiceClause, OrOp, HostClause, vals);
    assert Drop(vals, 1) == [StrVal("service1"), StrVal("hosta")] && Drop(vals, 2) == [StrVal("hosta")];
    var r := g.FromString(ExplicitQuery, values);
    kind, items, left := g.GetType(), g.GetItems(), values.items;
  }

  /** testParsingImplicitSubgroup: "a AND b OR c" gives the same tree as "a AND (b OR c)". */
  method ParsingImplicitSubgroup() returns (kind: GroupType, items: seq<Node>, left: seq<Value>)
    ensures kind == TypeAnd && left == []
    ensures items == [LeafOf(NumericClause, Some(IntVal(4))), ServiceOrHost()]
  {
    var vals := [IntVal(4), StrVal("service1"), StrVal("hosta")];
    var g := new Group();
    var values := new ValueList(vals);
    ImplicitQueryTokens();
    ImplicitSubgroup(NumericClause, AndOp, ServiceClause, OrOp, HostClause, vals);
    ExplicitSubgroup(NumericClause, AndOp, ServiceClause, OrOp, HostClause, vals);
    assert Drop(vals, 1) == [StrVal("service1"), StrVal("hosta")] && Drop(vals, 2) == [StrVal("hosta")];
    var r := g.FromString(ImplicitQuery, values);
    kind, items, left := g.GetType(), g.GetItems(), values.items;
  }

  const Base: seq<int> := [0, 1, 2, 3, 4, 5, 6, 7, 8]

  /**
   * Selecting from the tests' base index, which is ascending: r when r is
   * ascending and holds exactly the keys of the base in s.
   */
  lemma SelectFromBase(s: set<int>, r: seq<int>)
    requires Ascending(r) && Elems(r) == Elems(Base) * s
    ensures Keep(Base, s) == r
  {
    assert Ascending(Base);
    KeepAscending(Base, s);
    KeepElems(Base, s);
    AscendingUnique(Keep(Base, s), r);
  }

  /** The match set of a two-item group. */
  lemma PairMatchSet(kind: GroupType, a: Node, b: Node)
    ensures MatchSet(Group(kind, [a, b])) ==
            if kind == TypeAnd then MatchSet(a) * MatchSet(b) else MatchSet(a) + MatchSet(b)
  {
    assert [a, b][0] == a && [a, b][1..] == [b];
    assert [b][0] == b && [b][1..] == [];
    assert AllSet([b]) == MatchSet(b);
    assert AnySet([b]) == MatchSet(b) + AnySet([]);
  }

  /** The match set of a three-item AND group. */
  lemma TripleAndMatchSet(a: Node, b: Node, c: Node)
    ensures MatchSet(Group(TypeAnd, [a, b, c])) == MatchSet(a) * MatchSet(b) * MatchSet(c)
  {
    assert [a, b, c][0] == a && [a, b, c][1..] == [b, c];
    PairMatchSet(TypeAnd, b, c);
    assert [b, c][0] == b && [b, c][1..] == [c];
    assert AllSet([c]) == MatchSet(c);
  }

  /** The AND test's expected keys: base filtered by the intersection of the two match lists. */
  lemma AndFilterKeys()
    ensures Keep(Base, Elems([1, 2, 3, 4, 5, 6, 8]) * Elems([3, 4, 8])) == [3, 4, 8]
  {
    var s := Elems([1, 2, 3, 4, 5, 6, 8]) * Elems([3, 4, 8]);
    assert Elems([3, 4, 8]) == Elems(Base) * s;
    SelectFromBase(s, [3, 4, 8]);
  }

  /** The OR test's expected keys: base filtered by the union of the two match lists. */
  lemma OrFilterKeys()
    ensures Keep(Base, Elems([1, 2, 3]) + Elems([3, 4, 6, 8])) == [1, 2, 3, 4, 6, 8]
  {
    var s := Elems([1, 2, 3]) + Elems([3, 4, 6, 8]);
    assert Elems([1, 2, 3, 4, 6, 8]) == Elems(Base) * s;
    SelectFromBase(s, [1, 2, 3, 4, 6, 8]);
  }

  /** The combined test's expected keys. */
  lemma CombinedFilterKeys()
    ensures Keep(Base, Elems([1, 2, 3, 4, 5, 6, 8]) * Elems([3, 4, 8]) * (Elems([1, 2, 3]) + Elems([3, 4, 6, 8]))) == [3, 4, 8]
  {
    var s := Elems([1, 2, 3, 4, 5, 6, 8]) * Elems([3, 4, 8]) * (Elems([1, 2, 3]) + Elems([3, 4, 6, 8]));
    assert Elems([3, 4, 8]) == Elems(Base) * s;
    SelectFromBase(s, [3, 4, 8]);
  }

  /** A mock built without an expression, its match list set afterwards. */
  method MockMatching(filter: seq<int>) returns (leaf: Node)
    ensures leaf == Leaf(Expr(None, None, filter))
  {
    var none := new ValueList([]);
    var exp := new QueryExpressionMock(None, none);
    exp.filter := filter;
    leaf := Leaf(exp.AsExpr());
  }

  /** testAndFilter: setType(AND), addItem(exp1)->addItem(exp2)->filter(base). */
  method AndFilter() returns (r: seq<int>)
    ensures r == [3, 4, 8]
  {
    var g := new Group();
    g.SetType(TypeAnd);
    var exp1 := MockMatching([1, 2, 3, 4, 5, 6, 8]);
    var exp2 := MockMatching([3, 4, 8]);
    var self := g.AddItem(exp1);
    self := self.AddItem(exp2);
    assert self.Tree() == Group(TypeAnd, [exp1, exp2]);
    PairMatchSet(TypeAnd, exp1, exp2);
    AndFilterKeys();
    r := self.Filter(Base);
  }

  /** testOrFilter: setType(OR), addItem(exp1)->addItem(exp2)->filter(base). */
  method OrFilter() returns (r: seq<int>)
    ensures r == [1, 2, 3, 4, 6, 8]
  {
    var g := new Group();
    g.SetType(TypeOr);
    var exp1 := MockMatching([1, 2, 3]);
    var exp2 := MockMatching([3, 4, 6, 8]);
    var self := g.AddItem(exp1);
    self := self.AddItem(exp2);
    assert self.Tree() == Group(TypeOr, [exp1, exp2]);
    PairMatchSet(TypeOr, exp1, exp2);
    OrFilterKeys();
    r := self.Filter(Base);
  }

  /** testCombinedFilter: an AND group of two leaves and an OR group of two leaves. */
  method CombinedFilter() returns (r: seq<int>)
    ensures r == [3, 4, 8]
  {
    var andGroup := new Group();
    andGroup.SetType(TypeAnd);
    var orGroup := new Group();
    orGroup.SetType(TypeOr);
    var andExp1 := MockMatching([1, 2, 3, 4, 5, 6, 8]);
    var andExp2 := MockMatching([3, 4, 8]);
    var orExp1 := MockMatching([1, 2, 3]);
    var orExp2 := MockMatching([3, 4, 6, 8]);
    var self := andGroup.AddItem(andExp1);
    self := self.AddItem(andExp2);
    var orSelf := orGroup.AddItem(orExp1);
    orSelf := orSelf.AddItem(orExp2);
    var orTree := orSelf.Tree();
    assert orTree == Group(TypeOr, [orExp1, orExp2]);
    PairMatchSet(TypeOr, orExp1, orExp2);
    self := self.AddItem(orTree);
    assert self.Tree() == Group(TypeAnd, [andExp1, andExp2, orTree]);
    TripleAndMatchSet(andExp1, andExp2, orTree);
    CombinedFilterKeys();
    r := self.Filter(Base);
  }
}
