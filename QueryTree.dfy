/**
 * The query tree of the status.dat query protocol and its evaluation.
 *
 * A tree is built from leaf clauses (the fields of QueryExpressionMock) and
 * AND/OR groups. `Filter` evaluates a tree against an index sequence the way
 * the leaf's `filter` and the group's `filter` do: a leaf intersects the
 * index with its own match list (`array_intersect`), an AND group narrows the
 * index child by child, and an OR group collects the union of its children's
 * results. `MatchSet` is the independent reference semantics: plain set
 * intersection and union, recursively. `FilterIsKeep` connects the two.
 */
module QueryTree {
  import opened Wrappers

  /** Group::TYPE_AND and Group::TYPE_OR. */
  datatype GroupType = TypeAnd | TypeOr

  /** A scalar bound to a `?` placeholder; the tests bind integers and strings. */
  datatype Value = IntVal(i: int) | StrVal(s: string)

  /**
   * A leaf clause: `rawExpression` (null for a mock built without arguments),
   * the bound `value` (null when the value list was already empty) and the
   * mock's `filter` list of matching index keys.
   */
  datatype Expr = Expr(raw: Option<string>, value: Option<Value>, matches: seq<int>)

  /** An item of a group: a leaf clause or a nested group. */
  datatype Node = Leaf(expr: Expr) | Group(kind: GroupType, items: seq<Node>)

  /**
   * PHP's `array_shift` on the value list: the front value, or null when the
   * list is empty, and the list that remains.
   */
  function Shift(vals: seq<Value>): (r: (Option<Value>, seq<Value>))
    ensures r.0.None? <==> vals == []
    ensures r.0.Some? ==> vals == [r.0.value] + r.1
    ensures r.0.None? ==> r.1 == []
  {
    if vals == [] then (None, []) else (Some(vals[0]), vals[1..])
  }

  /** The leaf a clause becomes: the clause text unchanged, the shifted value, no matches. */
  function NewLeaf(raw: string, vals: seq<Value>): (r: (Expr, seq<Value>))
    ensures r.0.raw == Some(raw) && r.0.matches == []
    ensures (r.0.value, r.1) == Shift(vals)
  {
    var (v, rest) := Shift(vals);
    (Expr(Some(raw), v, []), rest)
  }

  // ---------------------------------------------------------------------
  // Sequences of index keys

  /** The keys occurring in a sequence. */
  function Elems(a: seq<int>): set<int>
  {
    set x | x in a
  }

  /** Reference selection: the elements of idx that lie in s, in idx order. */
  function Keep(idx: seq<int>, s: set<int>): (r: seq<int>)
    ensures forall x :: x in r <==> x in idx && x in s
    ensures |r| <= |idx|
  {
    if idx == [] then []
    else if idx[0] in s then [idx[0]] + Keep(idx[1..], s)
    else Keep(idx[1..], s)
  }

  /** a is obtained from b by deleting elements (order is kept). */
  predicate IsSubsequence(a: seq<int>, b: seq<int>)
  {
    if a == [] then true
    else if b == [] then false
    else if a[0] == b[0] then IsSubsequence(a[1..], b[1..])
    else IsSubsequence(a, b[1..])
  }

  /** PHP's `array_intersect(a, b)` after `array_values`: the elements of a that occur in b. */
  function Intersect(a: seq<int>, b: seq<int>): seq<int>
  {
    if a == [] then []
    else if a[0] in b then [a[0]] + Intersect(a[1..], b)
    else Intersect(a[1..], b)
  }

  /** The union of a and b, listed in the order of the index idx. */
  function UnionIn(idx: seq<int>, a: seq<int>, b: seq<int>): seq<int>
  {
    if idx == [] then []
    else if idx[0] in a || idx[0] in b then [idx[0]] + UnionIn(idx[1..], a, b)
    else UnionIn(idx[1..], a, b)
  }

  // ---------------------------------------------------------------------
  // Evaluation

  /**
   * `filter` on a tree: a leaf intersects idx with its match list; an AND
   * group feeds each child the index narrowed by the children before it; an
   * OR group gives every child the full index and unions the results; a
   * group without items yields nothing.
   */
  function Filter(n: Node, idx: seq<int>): seq<int>
    decreases n
  {
    match n
    case Leaf(e) => Intersect(idx, e.matches)
    case Group(TypeAnd, items) => if items == [] then [] else AndFold(items, idx)
    case Group(TypeOr, items) => OrFold(items, idx, [])
  }

  /** The AND loop: `idx := array_intersect(idx, child.filter(idx))` for each child. */
  function AndFold(items: seq<Node>, idx: seq<int>): seq<int>
    decreases items
  {
    if items == [] then idx else AndFold(items[1..], Intersect(idx, Filter(items[0], idx)))
  }

  /** The OR loop: `acc := acc ∪ child.filter(idx)` for each child. */
  function OrFold(items: seq<Node>, idx: seq<int>, acc: seq<int>): seq<int>
    decreases items
  {
    if items == [] then acc else OrFold(items[1..], idx, UnionIn(idx, acc, Filter(items[0], idx)))
  }

  // ---------------------------------------------------------------------
  // Reference semantics: set algebra

  /** The set of keys a tree matches: leaves give their match list, AND intersects, OR unions. */
  function MatchSet(n: Node): set<int>
    decreases n
  {
    match n
    case Leaf(e) => Elems(e.matches)
    case Group(TypeAnd, items) => if items == [] then {} else AllSet(items)
    case Group(TypeOr, items) => AnySet(items)
  }

  /** Intersection of the children's match sets (at least one child). */
  function AllSet(items: seq<Node>): set<int>
    requires items != []
    decreases items
  {
    if |items| == 1 then MatchSet(items[0]) else MatchSet(items[0]) * AllSet(items[1..])
  }

  /** Union of the children's match sets. */
  function AnySet(items: seq<Node>): set<int>
    decreases items
  {
    if items == [] then {} else MatchSet(items[0]) + AnySet(items[1..])
  }

  // ---------------------------------------------------------------------
  // Lemmas about the sequence helpers

  lemma {:induction false} KeepIsSubsequence(idx: seq<int>, s: set<int>)
    ensures IsSubsequence(Keep(idx, s), idx)
  {
    if idx != [] {
      KeepIsSubsequence(idx[1..], s);
      var rest := Keep(idx[1..], s);
      if idx[0] in s {
        assert Keep(idx, s)[1..] == rest;
      } else {
        assert Keep(idx, s) == rest;
        if rest != [] {
          assert rest[0] in s && rest[0] != idx[0];
        }
      }
    }
  }

  lemma {:induction false} KeepEmpty(idx: seq<int>)
    ensures Keep(idx, {}) == []
  {
    if idx != [] {
      KeepEmpty(idx[1..]);
    }
  }

  /** Keep only looks at members of idx: sets that agree on idx select the same. */
  lemma {:induction false} KeepAgree(idx: seq<int>, a: set<int>, b: set<int>)
    requires forall x :: x in idx ==> (x in a <==> x in b)
    ensures Keep(idx, a) == Keep(idx, b)
  {
    if idx != [] {
      var first := idx[0];
      assert first in idx;
      assert first in a <==> first in b;
      forall x | x in idx[1..] ensures x in a <==> x in b {
        assert x in idx;
      }
      KeepAgree(idx[1..], a, b);
    }
  }

  lemma KeepElems(idx: seq<int>, s: set<int>)
    ensures Elems(Keep(idx, s)) == Elems(idx) * s
  {
  }

  lemma {:induction false} KeepKeep(idx: seq<int>, a: set<int>, b: set<int>)
    ensures Keep(Keep(idx, a), b) == Keep(idx, a * b)
  {
    if idx != [] {
      KeepKeep(idx[1..], a, b);
      var first, k1 := idx[0], Keep(idx[1..], a);
      var k := Keep(idx, a);
      if first in a {
        assert k == [first] + k1;
        assert k[0] == first && k[1..] == k1;
      } else {
        assert k == k1;
        assert first !in a * b;
        assert Keep(idx, a * b) == Keep(idx[1..], a * b);
      }
    }
  }

  /** Keys in strictly increasing order. */
  predicate Ascending(a: seq<int>)
  {
    |a| <= 1 || (a[0] < a[1] && Ascending(a[1..]))
  }

  lemma {:induction false} AscendingHeadMin(a: seq<int>)
    requires a != [] && Ascending(a)
    ensures forall x :: x in a[1..] ==> a[0] < x
    decreases |a|
  {
    if |a| > 1 {
      AscendingHeadMin(a[1..]);
      assert a[1..][1..] == a[2..];
      assert forall x :: x in a[1..] ==> x == a[1] || x in a[2..];
    }
  }

  lemma ElemsEmpty(a: seq<int>)
    ensures Elems(a) == {} <==> a == []
  {
    if a != [] {
      assert a[0] in Elems(a);
    }
  }

  /** Two ascending sequences with the same keys are equal. */
  lemma {:induction false} AscendingUnique(a: seq<int>, b: seq<int>)
    requires Ascending(a) && Ascending(b) && Elems(a) == Elems(b)
    ensures a == b
    decreases |a|
  {
    if a == [] || b == [] {
      ElemsEmpty(a);
      ElemsEmpty(b);
    } else {
      AscendingHeadMin(a);
      AscendingHeadMin(b);
      assert forall x :: x in a <==> x == a[0] || x in a[1..];
      assert forall x :: x in b <==> x == b[0] || x in b[1..];
      assert a[0] in Elems(b) && b[0] in Elems(a);
      assert a[0] == b[0];
      forall x | x in a[1..] ensures x in b[1..] {
        assert x in Elems(b);
      }
      forall x | x in b[1..] ensures x in a[1..] {
        assert x in Elems(a);
      }
      assert Elems(a[1..]) == Elems(b[1..]);
      AscendingUnique(a[1..], b[1..]);
      assert a == [a[0]] + a[1..] && b == [b[0]] + b[1..];
    }
  }

  /** Selecting from an ascending index keeps it ascending. */
  lemma {:induction false} KeepAscending(idx: seq<int>, s: set<int>)
    requires Ascending(idx)
    ensures Ascending(Keep(idx, s))
    decreases |idx|
  {
    if idx != [] {
      var rest := Keep(idx[1..], s);
      KeepAscending(idx[1..], s);
      AscendingHeadMin(idx);
      var r := Keep(idx, s);
      if idx[0] in s {
        assert r == [idx[0]] + rest;
        if rest != [] {
          assert rest[0] in idx[1..];
          assert r[0] < r[1] && r[1..] == rest;
        }
      } else {
        assert r == rest;
      }
    }
  }

  /** `array_intersect` is selection by the members of its second argument. */
  lemma {:induction false} IntersectIsKeep(a: seq<int>, b: seq<int>)
    ensures Intersect(a, b) == Keep(a, Elems(b))
  {
    if a != [] {
      IntersectIsKeep(a[1..], b);
    }
  }

  /** UnionIn is selection from idx by the union of the two key sets. */
  lemma {:induction false} UnionInIsKeep(idx: seq<int>, a: seq<int>, b: seq<int>)
    ensures UnionIn(idx, a, b) == Keep(idx, Elems(a) + Elems(b))
  {
    if idx != [] {
      UnionInIsKeep(idx[1..], a, b);
    }
  }

  // ---------------------------------------------------------------------
  // Filter agrees with the set algebra

  /** Filtering by a tree is selecting, in idx order, the keys of its match set. */
  lemma {:induction false} FilterIsKeep(n: Node, idx: seq<int>)
    ensures Filter(n, idx) == Keep(idx, MatchSet(n))
    decreases n
  {
    match n
    case Leaf(e) =>
      IntersectIsKeep(idx, e.matches);
    case Group(TypeAnd, items) =>
      if items == [] {
        KeepEmpty(idx);
      } else {
        AndFoldIsKeep(items, idx);
      }
    case Group(TypeOr, items) =>
      KeepEmpty(idx);
      OrFoldIsKeep(items, idx, {});
      assert {} + AnySet(items) == AnySet(items);
  }

  lemma {:induction false} AndFoldIsKeep(items: seq<Node>, idx: seq<int>)
    requires items != []
    ensures AndFold(items, idx) == Keep(idx, AllSet(items))
    decreases items
  {
    var c := items[0];
    var m := MatchSet(c);
    var narrowed := Intersect(idx, Filter(c, idx));
    FilterIsKeep(c, idx);
    IntersectIsKeep(idx, Filter(c, idx));
    KeepElems(idx, m);
    KeepAgree(idx, Elems(idx) * m, m);
    assert narrowed == Keep(idx, m);
    if |items| > 1 {
      AndFoldIsKeep(items[1..], narrowed);
      KeepKeep(idx, m, AllSet(items[1..]));
    }
  }

  lemma {:induction false} OrFoldIsKeep(items: seq<Node>, idx: seq<int>, a: set<int>)
    ensures OrFold(items, idx, Keep(idx, a)) == Keep(idx, a + AnySet(items))
    decreases items
  {
    if items == [] {
      assert a + AnySet(items) == a;
    } else {
      var c := items[0];
      var m := MatchSet(c);
      FilterIsKeep(c, idx);
      UnionInIsKeep(idx, Keep(idx, a), Filter(c, idx));
      KeepElems(idx, a);
      KeepElems(idx, m);
      KeepAgree(idx, Elems(idx) * a + Elems(idx) * m, a + m);
      assert UnionIn(idx, Keep(idx, a), Filter(c, idx)) == Keep(idx, a + m);
      OrFoldIsKeep(items[1..], idx, a + m);
      assert a + m + AnySet(items[1..]) == a + AnySet(items);
    }
  }

  // ---------------------------------------------------------------------
  // What callers of filter rely on

  /** The result of filter is a subsequence of the index: order kept, nothing added. */
  lemma FilterIsSubsequence(n: Node, idx: seq<int>)
    ensures IsSubsequence(Filter(n, idx), idx)
  {
    FilterIsKeep(n, idx);
    KeepIsSubsequence(idx, MatchSet(n));
  }

  lemma {:induction false} AllSetMember(items: seq<Node>, x: int)
    requires items != []
    ensures x in AllSet(items) <==> forall i :: 0 <= i < |items| ==> x in MatchSet(items[i])
    decreases items
  {
    if |items| > 1 {
      AllSetMember(items[1..], x);
      assert forall i :: 1 <= i < |items| ==> items[i] == items[1..][i - 1];
    }
  }

  lemma {:induction false} AnySetMember(items: seq<Node>, x: int)
    ensures x in AnySet(items) <==> exists i :: 0 <= i < |items| && x in MatchSet(items[i])
    decreases items
  {
    if items != [] {
      AnySetMember(items[1..], x);
      assert forall i :: 1 <= i < |items| ==> items[i] == items[1..][i - 1];
      if x in AnySet(items[1..]) {
        var i :| 0 <= i < |items[1..]| && x in MatchSet(items[1..][i]);
        assert x in MatchSet(items[i + 1]);
      }
    }
  }

  /**
   * An AND group keeps exactly the keys of idx that every child keeps; a
   * group with no items keeps nothing.
   */
  lemma AndFilterIsIntersection(items: seq<Node>, idx: seq<int>, x: int)
    ensures x in Filter(Group(TypeAnd, items), idx) <==>
            items != [] && forall i :: 0 <= i < |items| ==> x in Filter(items[i], idx)
  {
    FilterIsKeep(Group(TypeAnd, items), idx);
    forall i | 0 <= i < |items| {
      FilterIsKeep(items[i], idx);
    }
    if items != [] {
      AllSetMember(items, x);
    }
  }

  /** An OR group keeps exactly the keys of idx that some child keeps. */
  lemma OrFilterIsUnion(items: seq<Node>, idx: seq<int>, x: int)
    ensures x in Filter(Group(TypeOr, items), idx) <==>
            exists i :: 0 <= i < |items| && x in Filter(items[i], idx)
  {
    FilterIsKeep(Group(TypeOr, items), idx);
    forall i | 0 <= i < |items| {
      FilterIsKeep(items[i], idx);
    }
    AnySetMember(items, x);
  }
}
