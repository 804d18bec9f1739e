/**
 * The objects of the status.dat query engine: the caller's value array that
 * parsing shortens in place, the leaf clause QueryExpressionMock, and Group,
 * whose type and items are set by setType, addItem and fromString.
 *
 * The imperative parser here builds its leaves by constructing mock objects
 * on the caller's value list, and is proved to compute what the pure parser
 * of module Parser does.
 */
module Statusdat {
  import opened Wrappers
  import opened QueryTree
  import opened Lexer
  import opened Parser

  /** A PHP array passed by reference: a list of values that array_shift shortens in place. */
  class ValueList {
    var items: seq<Value>

    constructor(items: seq<Value>)
      ensures this.items == items
    {
      this.items := items;
    }

    /** `array_shift`: remove and return the front value, null when there is none. */
    method Shift() returns (v: Option<Value>)
      modifies this
      ensures (v, items) == QueryTree.Shift(old(items))
    {
      if items == [] {
        v := None;
      } else {
        v := Some(items[0]);
        items := items[1..];
      }
    }
  }

  /** The leaf clause used by the tests. */
  class QueryExpressionMock {
    var rawExpression: Option<string>
    var value: Option<Value>
    var filter: seq<int>

    /**
     * Takes the front value off the caller's list as `value` and keeps the
     * clause text as `rawExpression`; the match list starts empty.
     */
    constructor(expression: Option<string>, values: ValueList)
      modifies values
      ensures rawExpression == expression && filter == []
      ensures (value, values.items) == QueryTree.Shift(old(values.items))
    {
      var v := values.Shift();
      value := v;
      rawExpression := expression;
      filter := [];
    }

    /** The leaf's fields as a value of the query tree. */
    function AsExpr(): Expr
      reads this
    {
      Expr(rawExpression, value, filter)
    }

    /**
     * `filter(base, idx)`: the keys of idx that also occur in the match
     * list, in idx order; base is not used.
     */
    function Filter(base: seq<int>, idx: seq<int>): (r: seq<int>)
      reads this
      ensures forall x :: x in r <==> x in idx && x in filter
      ensures IsSubsequence(r, idx)
      ensures r == Keep(idx, Elems(filter))
    {
      IntersectIsKeep(idx, filter);
      KeepIsSubsequence(idx, Elems(filter));
      Intersect(idx, filter)
    }
  }

  /** An AND/OR group of query parts. */
  class Group {
    var kind: GroupType
    var items: seq<Node>

    /** A new group is an AND group without items. */
    constructor()
      ensures kind == TypeAnd && items == []
    {
      kind := TypeAnd;
      items := [];
    }

    /** `getType()`: the group's current type. */
    function GetType(): (t: GroupType)
      reads this
      ensures t == kind
    {
      kind
    }

    /** `getItems()`: the group's current items, in the order they were added. */
    function GetItems(): (r: seq<Node>)
      reads this
      ensures r == items
    {
      items
    }

    method SetType(t: GroupType)
      modifies this
      ensures kind == t && items == old(items)
    {
      kind := t;
    }

    /** Appends an item and returns the group itself, so that calls chain. */
    method AddItem(item: Node) returns (self: Group)
      modifies this
      ensures self == this
      ensures kind == old(kind) && items == old(items) + [item]
    {
      items := items + [item];
      self := this;
    }

    /** The group's current contents as a query tree. */
    function Tree(): Node
      reads this
    {
      Node.Group(kind, items)
    }

    /**
     * `filter(base)`: the keys of base the group matches, in base order: the
     * keys in the intersection (AND) or union (OR) of its items' match sets.
     */
    function Filter(base: seq<int>): (r: seq<int>)
      reads this
      ensures r == Keep(base, MatchSet(Tree()))
      ensures IsSubsequence(r, base)
    {
      FilterIsKeep(Tree(), base);
      KeepIsSubsequence(base, MatchSet(Tree()));
      QueryTree.Filter(Tree(), base)
    }

    /**
     * `fromString(expression, values)`: on success the group takes the type
     * and items of the parsed top-level group and the caller's list keeps
     * only the values no leaf took; on a parse error the group is unchanged.
     */
    method FromString(expression: string, values: ValueList) returns (r: Result<(), ParseError>)
      modifies this, values
      ensures r.Ok? <==> Parse(expression, old(values.items)).Ok?
      ensures r.Ok? ==> var (root, rest) := Parse(expression, old(values.items)).value;
                        kind == root.kind && items == root.items && values.items == rest
      ensures r.Err? ==> r.error == Parse(expression, old(values.items)).error
      ensures r.Err? ==> kind == old(kind) && items == old(items)
      ensures IsSuffix(values.items, old(values.items))
    {
      r := FromTokens(Lex(expression), values);
    }

    /** fromString once the expression has been split into tokens. */
    method FromTokens(toks: seq<Token>, values: ValueList) returns (r: Result<(), ParseError>)
      modifies this, values
      ensures r.Ok? <==> ParseTokens(toks, old(values.items)).Ok?
      ensures r.Ok? ==> var (root, rest) := ParseTokens(toks, old(values.items)).value;
                        kind == root.kind && items == root.items && values.items == rest
      ensures r.Err? ==> r.error == ParseTokens(toks, old(values.items)).error
      ensures r.Err? ==> kind == old(kind) && items == old(items)
      ensures IsSuffix(values.items, old(values.items))
    {
      var level := ParseLevelM(toks, 0, None, [], values);
      if level.Err? {
        return Err(level.error);
      }
      var Parsed(root, q, _) := level.value;
      if q < |toks| {
        return Err(UnexpectedClose(q));
      }
      kind := root.kind;
      items := root.items;
      r := Ok(());
    }
  }

  lemma SuffixTrans<T>(a: seq<T>, b: seq<T>, c: seq<T>)
    requires IsSuffix(a, b) && IsSuffix(b, c)
    ensures IsSuffix(a, c)
  {
    assert b[|b| - |a|..] == c[|c| - |a|..];
  }

  /** One operand; a clause becomes a new QueryExpressionMock on the value list. */
  method ParseItemM(toks: seq<Token>, pos: nat, values: ValueList) returns (r: Result<Parsed, ParseError>)
    requires pos <= |toks|
    modifies values
    ensures r == ParseItem(toks, pos, old(values.items))
    ensures r.Ok? ==> values.items == r.value.rest
    ensures IsSuffix(values.items, old(values.items))
    decreases |toks| - pos, 0
  {
    if pos == |toks| {
      return Err(UnexpectedEnd);
    }
    match toks[pos]
    case Clause(text) =>
      var leaf := new QueryExpressionMock(Some(text), values);
      r := Ok(Parsed(Leaf(leaf.AsExpr()), pos + 1, values.items));
    case Open =>
      var inner := ParseLevelM(toks, pos + 1, None, [], values);
      if inner.Err? {
        return Err(inner.error);
      }
      var Parsed(g, q, rest) := inner.value;
      if q < |toks| {
        r := Ok(Parsed(g, q + 1, rest));
      } else {
        r := Err(MissingClose(pos));
      }
    case _ =>
      r := Err(ExpectedOperand(pos));
  }

  /** One level: its first item, then what follows it. */
  method ParseLevelM(toks: seq<Token>, pos: nat, kind: Option<GroupType>, items: seq<Node>,
                     values: ValueList) returns (r: Result<Parsed, ParseError>)
    requires pos <= |toks|
    modifies values
    ensures r == ParseLevel(toks, pos, kind, items, old(values.items))
    ensures r.Ok? ==> values.items == r.value.rest
    ensures IsSuffix(values.items, old(values.items))
    decreases |toks| - pos, 1
  {
    var first := ParseItemM(toks, pos, values);
    if first.Err? {
      return Err(first.error);
    }
    ghost var mid := values.items;
    r := ParseAfterM(toks, kind, items, first.value, values);
    SuffixTrans(values.items, mid, old(values.items));
  }

  /**
   * After an item: close the level, or read the operator and continue the
   * level, or hand the rest to a nested group when the operator changes.
   */
  method ParseAfterM(toks: seq<Token>, kind: Option<GroupType>, items: seq<Node>, last: Parsed,
                     values: ValueList) returns (r: Result<Parsed, ParseError>)
    requires last.next <= |toks| && values.items == last.rest
    modifies values
    ensures r == ParseAfter(toks, kind, items, last)
    ensures r.Ok? ==> values.items == r.value.rest
    ensures IsSuffix(values.items, old(values.items))
    decreases |toks| - last.next, 2
  {
    var Parsed(item, p, _) := last;
    if p == |toks| || toks[p] == Close {
      return Ok(Parsed(Node.Group(if kind.Some? then kind.value else TypeAnd, items + [item]), p, values.items));
    }
    if !(toks[p].AndOp? || toks[p].OrOp?) {
      return Err(ExpectedOperator(p));
    }
    var k := OperatorType(toks[p]);
    if kind.None? || kind == Some(k) {
      r := ParseLevelM(toks, p + 1, Some(k), items + [item], values);
    } else {
      var sub := ParseLevelM(toks, p + 1, Some(k), [item], values);
      if sub.Err? {
        return Err(sub.error);
      }
      r := Ok(Parsed(Node.Group(kind.value, items + [sub.value.node]), sub.value.next, sub.value.rest));
    }
  }
}
