/**
 * Tokenizer for query strings such as
 *   "numeric_val >= ? AND (service_description = ? OR host_name = ?)".
 *
 * The keywords `AND` and `OR` are recognised only as whole, upper-case words;
 * `(` and `)` are tokens of their own wherever they stand; every maximal run
 * of other words becomes one clause, whose text is the source text from its
 * first to its last character, inner spacing included.
 */
module Lexer {

  datatype Token = Open | Close | AndOp | OrOp | Clause(text: string)

  predicate IsSpace(c: char)
  {
    c == ' ' || c == '\t' || c == '\n' || c == '\r'
  }

  predicate IsParen(c: char)
  {
    c == '(' || c == ')'
  }

  predicate IsDelim(c: char)
  {
    IsSpace(c) || IsParen(c)
  }

  /** The keywords, as written. */
  predicate IsKeyword(w: string)
  {
    w == "AND" || w == "OR"
  }

  /** The word from i to j is `AND`. */
  predicate AndAt(s: string, i: nat, j: nat)
    requires i <= j <= |s|
  {
    j == i + 3 && s[i] == 'A' && s[i + 1] == 'N' && s[i + 2] == 'D'
  }

  /** The word from i to j is `OR`. */
  predicate OrAt(s: string, i: nat, j: nat)
    requires i <= j <= |s|
  {
    j == i + 2 && s[i] == 'O' && s[i + 1] == 'R'
  }

  /** The word from i to j is a keyword. */
  predicate KeywordAt(s: string, i: nat, j: nat)
    requires i <= j <= |s|
  {
    AndAt(s, i, j) || OrAt(s, i, j)
  }

  /** The character tests above say that the word is spelt `AND` or `OR`. */
  lemma KeywordAtSpelling(s: string, i: nat, j: nat)
    requires i <= j <= |s|
    ensures AndAt(s, i, j) <==> s[i..j] == "AND"
    ensures OrAt(s, i, j) <==> s[i..j] == "OR"
    ensures KeywordAt(s, i, j) <==> IsKeyword(s[i..j])
  {
    if s[i..j] == "AND" {
      assert s[i] == s[i..j][0] && s[i + 1] == s[i..j][1] && s[i + 2] == s[i..j][2];
    }
    if s[i..j] == "OR" {
      assert s[i] == s[i..j][0] && s[i + 1] == s[i..j][1];
    }
    if AndAt(s, i, j) {
      assert s[i..j] == [s[i], s[i + 1], s[i + 2]];
    }
    if OrAt(s, i, j) {
      assert s[i..j] == [s[i], s[i + 1]];
    }
  }

  /** The first delimiter at or after i: the end of the word starting at i. */
  function WordEnd(s: string, i: nat): (j: nat)
    requires i <= |s|
    ensures i <= j <= |s|
    ensures forall k :: i <= k < j ==> !IsDelim(s[k])
    ensures j == |s| || IsDelim(s[j])
    decreases |s| - i
  {
    if i == |s| || IsDelim(s[i]) then i else WordEnd(s, i + 1)
  }

  /** The first character at or after i that is not white space. */
  function SkipSpaces(s: string, i: nat): (j: nat)
    requires i <= |s|
    ensures i <= j <= |s|
    ensures forall k :: i <= k < j ==> IsSpace(s[k])
    ensures j == |s| || !IsSpace(s[j])
    decreases |s| - i
  {
    if i == |s| || !IsSpace(s[i]) then i else SkipSpaces(s, i + 1)
  }

  /** The word starting at i ends at j when [i, j) holds no delimiter and a delimiter or the end follows. */
  lemma {:induction false} WordEndAt(s: string, i: nat, j: nat)
    requires i <= j <= |s|
    requires forall k :: i <= k < j ==> !IsDelim(s[k])
    requires j == |s| || IsDelim(s[j])
    ensures WordEnd(s, i) == j
    decreases j - i
  {
    if i < j {
      WordEndAt(s, i + 1, j);
    }
  }

  /** The blanks starting at i end at j when [i, j) is blank and no blank follows. */
  lemma {:induction false} SkipSpacesAt(s: string, i: nat, j: nat)
    requires i <= j <= |s|
    requires forall k :: i <= k < j ==> IsSpace(s[k])
    requires j == |s| || !IsSpace(s[j])
    ensures SkipSpaces(s, i) == j
    decreases j - i
  {
    if i < j {
      SkipSpacesAt(s, i + 1, j);
    }
  }

  /** A word that belongs to a clause starts at i. */
  predicate ClauseWordAt(s: string, i: nat)
    requires i <= |s|
  {
    i < |s| && !IsDelim(s[i]) && !KeywordAt(s, i, WordEnd(s, i))
  }

  /** The end of the clause whose first word starts at i: the end of its last clause word. */
  function ClauseEnd(s: string, i: nat): (e: nat)
    requires i <= |s| && ClauseWordAt(s, i)
    ensures i < e <= |s|
    ensures !IsSpace(s[e - 1])
    ensures forall k :: i <= k < e ==> !IsParen(s[k])
    ensures e == |s| || IsDelim(s[e])
    ensures !ClauseWordAt(s, SkipSpaces(s, e))
    ensures forall k :: i <= k < e && WordStart(s, k) ==> ClauseWordAt(s, k)
    decreases |s| - i
  {
    var j := WordEnd(s, i);
    var k := SkipSpaces(s, j);
    if ClauseWordAt(s, k) then ClauseEnd(s, k) else j
  }

  /** The tokens of s[i..]. */
  function LexFrom(s: string, i: nat): seq<Token>
    requires i <= |s|
    decreases |s| - i
  {
    if i == |s| then []
    else if IsSpace(s[i]) then LexFrom(s, i + 1)
    else if s[i] == '(' then [Open] + LexFrom(s, i + 1)
    else if s[i] == ')' then [Close] + LexFrom(s, i + 1)
    else
      var j := WordEnd(s, i);
      if AndAt(s, i, j) then [AndOp] + LexFrom(s, j)
      else if OrAt(s, i, j) then [OrOp] + LexFrom(s, j)
      else
        var e := ClauseEnd(s, i);
        [Clause(s[i..e])] + LexFrom(s, e)
  }

  function Lex(s: string): seq<Token>
  {
    LexFrom(s, 0)
  }

  // ---------------------------------------------------------------------
  // Clause texts and placeholders

  /** The texts of the clause tokens, in order. */
  function Clauses(toks: seq<Token>): seq<string>
  {
    if toks == [] then []
    else if toks[0].Clause? then [toks[0].text] + Clauses(toks[1..])
    else Clauses(toks[1..])
  }

  /** The number of `?` placeholders in a text. */
  function Placeholders(t: string): nat
  {
    if t == [] then 0 else (if t[0] == '?' then 1 else 0) + Placeholders(t[1..])
  }

  /** The number of placeholders over a list of clause texts. */
  function TotalPlaceholders(texts: seq<string>): nat
  {
    if texts == [] then 0 else Placeholders(texts[0]) + TotalPlaceholders(texts[1..])
  }

  /** A word of t starts at k: a character that is no delimiter, at the front or after a blank. */
  predicate WordStart(t: string, k: nat)
    requires k < |t|
  {
    !IsDelim(t[k]) && (k == 0 || IsSpace(t[k - 1]))
  }

  /**
   * What a clause token's text looks like: nonempty, trimmed, free of
   * parentheses, and none of its words is a keyword.
   */
  predicate IsClauseText(t: string)
  {
    && |t| > 0
    && !IsSpace(t[0])
    && !IsSpace(t[|t| - 1])
    && (forall k :: 0 <= k < |t| ==> !IsParen(t[k]))
    && (forall k :: 0 <= k < |t| && WordStart(t, k) ==> !KeywordAt(t, k, WordEnd(t, k)))
  }

  /** The clause texts among the tokens at positions a to b - 1. */
  function ClausesIn(toks: seq<Token>, a: nat, b: nat): seq<string>
    requires a <= b <= |toks|
    decreases b - a
  {
    if a == b then []
    else if toks[a].Clause? then [toks[a].text] + ClausesIn(toks, a + 1, b)
    else ClausesIn(toks, a + 1, b)
  }

  /** Clauses of adjacent spans add up. */
  lemma {:induction false} ClausesInSplit(toks: seq<Token>, a: nat, b: nat, c: nat)
    requires a <= b <= c <= |toks|
    ensures ClausesIn(toks, a, c) == ClausesIn(toks, a, b) + ClausesIn(toks, b, c)
    decreases b - a
  {
    if a < b {
      ClausesInSplit(toks, a + 1, b, c);
      if toks[a].Clause? {
        var h := [toks[a].text];
        assert h + (ClausesIn(toks, a + 1, b) + ClausesIn(toks, b, c)) ==
               (h + ClausesIn(toks, a + 1, b)) + ClausesIn(toks, b, c);
      }
    }
  }

  /** The clauses of a one-token span. */
  lemma ClausesInOne(toks: seq<Token>, i: nat)
    requires i < |toks|
    ensures ClausesIn(toks, i, i + 1) == if toks[i].Clause? then [toks[i].text] else []
  {
    assert ClausesIn(toks, i + 1, i + 1) == [];
  }

  /** Over the whole list, ClausesIn lists the clauses. */
  lemma {:induction false} ClausesInSuffix(toks: seq<Token>, a: nat)
    requires a <= |toks|
    ensures ClausesIn(toks, a, |toks|) == Clauses(toks[a..])
    decreases |toks| - a
  {
    if a < |toks| {
      ClausesInSuffix(toks, a + 1);
      assert toks[a..][0] == toks[a] && toks[a..][1..] == toks[a + 1..];
    }
  }

  lemma ClausesInAll(toks: seq<Token>)
    ensures ClausesIn(toks, 0, |toks|) == Clauses(toks)
  {
    ClausesInSuffix(toks, 0);
    assert toks[0..] == toks;
  }

  lemma {:induction false} PlaceholdersConcat(a: string, b: string)
    ensures Placeholders(a + b) == Placeholders(a) + Placeholders(b)
  {
    if a == [] {
      assert a + b == b;
    } else {
      assert (a + b)[0] == a[0] && (a + b)[1..] == a[1..] + b;
      PlaceholdersConcat(a[1..], b);
    }
  }

  lemma {:induction false} NoPlaceholders(t: string)
    requires forall k :: 0 <= k < |t| ==> t[k] != '?'
    ensures Placeholders(t) == 0
  {
    if t != [] {
      NoPlaceholders(t[1..]);
    }
  }

  /** Splitting a text at any point splits its placeholder count. */
  lemma PlaceholdersSplit(s: string, i: nat, j: nat)
    requires i <= j <= |s|
    ensures Placeholders(s[i..]) == Placeholders(s[i..j]) + Placeholders(s[j..])
  {
    assert s[i..] == s[i..j] + s[j..];
    PlaceholdersConcat(s[i..j], s[j..]);
  }

  /** Where the lexer resumes after what starts at i: a blank or parenthesis, a keyword, or a clause. */
  function NextPos(s: string, i: nat): (n: nat)
    requires i < |s|
    ensures i < n <= |s|
  {
    if IsDelim(s[i]) then i + 1
    else if ClauseWordAt(s, i) then ClauseEnd(s, i)
    else WordEnd(s, i)
  }

  /** One step of the lexer, as seen by the clause list. */
  lemma LexStep(s: string, i: nat)
    requires i < |s|
    ensures ClauseWordAt(s, i) ==> Clauses(LexFrom(s, i)) == [s[i..NextPos(s, i)]] + Clauses(LexFrom(s, NextPos(s, i)))
    ensures !ClauseWordAt(s, i) ==> Clauses(LexFrom(s, i)) == Clauses(LexFrom(s, NextPos(s, i)))
  {
    var n, rest := NextPos(s, i), LexFrom(s, NextPos(s, i));
    if !IsSpace(s[i]) {
      var t := if s[i] == '(' then Open else if s[i] == ')' then Close
               else if ClauseWordAt(s, i) then Clause(s[i..n])
               else if AndAt(s, i, n) then AndOp else OrOp;
      assert LexFrom(s, i) == [t] + rest;
      assert ([t] + rest)[0] == t && ([t] + rest)[1..] == rest;
    }
  }

  /** What the lexer skips or turns into a keyword or parenthesis holds no placeholder. */
  lemma SkippedHasNoPlaceholders(s: string, i: nat)
    requires i < |s| && !ClauseWordAt(s, i)
    ensures Placeholders(s[i..NextPos(s, i)]) == 0
  {
    var n := NextPos(s, i);
    if IsDelim(s[i]) {
      assert s[i..n] == [s[i]] && [s[i]][1..] == [];
    } else {
      NoPlaceholders(s[i..n]);
    }
  }

  lemma TotalPlaceholdersCons(t: string, rest: seq<string>)
    ensures TotalPlaceholders([t] + rest) == Placeholders(t) + TotalPlaceholders(rest)
  {
    assert ([t] + rest)[0] == t && ([t] + rest)[1..] == rest;
  }

  /** Every `?` of the input lands in exactly one clause token. */
  lemma {:induction false} LexFromKeepsPlaceholders(s: string, i: nat)
    requires i <= |s|
    ensures Placeholders(s[i..]) == TotalPlaceholders(Clauses(LexFrom(s, i)))
    decreases |s| - i
  {
    if i < |s| {
      var n := NextPos(s, i);
      LexFromKeepsPlaceholders(s, n);
      PlaceholdersSplit(s, i, n);
      LexStep(s, i);
      if ClauseWordAt(s, i) {
        TotalPlaceholdersCons(s[i..n], Clauses(LexFrom(s, n)));
      } else {
        SkippedHasNoPlaceholders(s, i);
      }
    }
  }

  /** The placeholder count of a query string equals that of its clauses. */
  lemma LexKeepsPlaceholders(s: string)
    ensures Placeholders(s) == TotalPlaceholders(Clauses(Lex(s)))
  {
    LexFromKeepsPlaceholders(s, 0);
    assert s[0..] == s;
  }

  /** The text of the clause starting at i is well formed. */
  lemma ClauseTextAt(s: string, i: nat)
    requires i < |s| && ClauseWordAt(s, i)
    ensures IsClauseText(s[i..ClauseEnd(s, i)])
  {
    var e := ClauseEnd(s, i);
    var t := s[i..e];
    assert t[0] == s[i] && t[|t| - 1] == s[e - 1];
    forall k | 0 <= k < |t| ensures !IsParen(t[k]) {
      assert t[k] == s[i + k];
    }
    assert WrittenAt(s, i, t);
    forall k | 0 <= k < |t| && WordStart(t, k) ensures !KeywordAt(t, k, WordEnd(t, k)) {
      WordOfClause(s, i, t, k);
    }
  }

  /** A word of a clause text t written at i is the word of s at the same place, so no keyword. */
  lemma WordOfClause(s: string, i: nat, t: string, k: nat)
    requires WrittenAt(s, i, t) && (i + |t| == |s| || IsDelim(s[i + |t|]))
    requires forall p :: i <= p < i + |t| && WordStart(s, p) ==> ClauseWordAt(s, p)
    requires ClauseWordAt(s, i)
    requires k < |t| && WordStart(t, k)
    ensures !KeywordAt(t, k, WordEnd(t, k))
  {
    assert s[i + k] == t[k];
    if k > 0 {
      assert s[i + (k - 1)] == t[k - 1];
      assert WordStart(s, i + k);
    }
    var j := WordEnd(s, i + k);
    forall p | k <= p < j - i ensures !IsDelim(t[p]) {
      assert s[i + p] == t[p];
    }
    assert j - i < |t| ==> s[i + (j - i)] == t[j - i];
    WordEndAt(t, k, j - i);
    KeywordAtWritten(s, i, t, k, j - i);
  }

  /** Whether a word is a keyword is the same in t and in s where t is written. */
  lemma KeywordAtWritten(s: string, i: nat, t: string, a: nat, b: nat)
    requires WrittenAt(s, i, t) && a <= b <= |t|
    ensures KeywordAt(s, i + a, i + b) <==> KeywordAt(t, a, b)
    ensures AndAt(s, i + a, i + b) <==> AndAt(t, a, b)
  {
    if b - a == 2 || b - a == 3 {
      assert s[i + a] == t[a] && s[i + (a + 1)] == t[a + 1];
    }
    if b - a == 3 {
      assert s[i + (a + 2)] == t[a + 2];
    }
  }

  /** Every clause token is trimmed, nonempty and free of parentheses. */
  lemma {:induction false} LexFromClausesWellFormed(s: string, i: nat)
    requires i <= |s|
    ensures forall t :: t in Clauses(LexFrom(s, i)) ==> IsClauseText(t)
    decreases |s| - i
  {
    if i < |s| {
      var n := NextPos(s, i);
      LexFromClausesWellFormed(s, n);
      LexStep(s, i);
      if ClauseWordAt(s, i) {
        ClauseTextAt(s, i);
      }
    }
  }

  lemma LexClausesWellFormed(s: string)
    ensures forall t :: t in Clauses(Lex(s)) ==> IsClauseText(t)
  {
    LexFromClausesWellFormed(s, 0);
  }

  // ---------------------------------------------------------------------
  // Writing tokens out, and reading them back

  /** How a token is written in a query string. */
  function Spelling(t: Token): string
  {
    match t
    case Open => "("
    case Close => ")"
    case AndOp => "AND"
    case OrOp => "OR"
    case Clause(x) => x
  }

  /**
   * A token list written out as a query string: one blank between two
   * tokens, none after `(` or before `)`, as in
   * `numeric_val >= ? AND (service_description = ? OR host_name = ?)`.
   */
  function Render(toks: seq<Token>): string
  {
    if toks == [] then []
    else if |toks| == 1 then Spelling(toks[0])
    else if toks[0] == Open || toks[1] == Close then Spelling(toks[0]) + Render(toks[1..])
    else Spelling(toks[0]) + " " + Render(toks[1..])
  }

  /** Token lists that survive being written out: well-formed clause texts, never two clauses in a row. */
  predicate Renderable(toks: seq<Token>)
  {
    toks == [] ||
    (&& (toks[0].Clause? ==> IsClauseText(toks[0].text))
     && (|toks| > 1 ==> !(toks[0].Clause? && toks[1].Clause?))
     && Renderable(toks[1..]))
  }

  /** w stands in s from position i on. */
  predicate WrittenAt(s: string, i: nat, w: string)
  {
    i + |w| <= |s| && forall k :: 0 <= k < |w| ==> s[i + k] == w[k]
  }

  /** A part of a text written at i is the same part of s. */
  lemma WrittenPart(s: string, i: nat, w: string, a: nat, b: nat)
    requires WrittenAt(s, i, w) && a <= b <= |w|
    ensures s[i + a..i + b] == w[a..b]
  {
    forall p | 0 <= p < b - a ensures s[i + a..i + b][p] == w[a..b][p] {
      assert s[i + a + p] == w[a + p];
    }
  }

  /** Writing a + b at i writes a at i and b right after it. */
  lemma WrittenConcat(s: string, i: nat, a: string, b: string)
    requires WrittenAt(s, i, a + b)
    ensures WrittenAt(s, i, a) && WrittenAt(s, i + |a|, b)
  {
    forall k | 0 <= k < |a| ensures s[i + k] == a[k] {
      assert (a + b)[k] == a[k];
    }
    forall k | 0 <= k < |b| ensures s[i + |a| + k] == b[k] {
      assert (a + b)[|a| + k] == b[k];
    }
  }

  /** A written-out list starts with the first character of its first token. */
  lemma RenderStart(toks: seq<Token>)
    requires toks != [] && |Spelling(toks[0])| > 0
    ensures |Render(toks)| > 0 && Render(toks)[0] == Spelling(toks[0])[0]
  {
    var w := Spelling(toks[0]);
    if |toks| > 1 {
      var r := Render(toks[1..]);
      assert (w + r)[0] == w[0];
      assert (w + " " + r)[0] == w[0];
    }
  }

  /** Where the first token of a written-out list ends, and what follows it. */
  lemma RenderFront(s: string, i: nat, toks: seq<Token>)
    requires WrittenAt(s, i, Render(toks)) && i + |Render(toks)| == |s| && Renderable(toks) && toks != []
    ensures var n := i + |Spelling(toks[0])|;
      && i < n && WrittenAt(s, i, Spelling(toks[0]))
      && (toks[0] != Open ==> n == |s| || IsDelim(s[n]))
      && (|toks| == 1 ==> n == |s|)
      && (|toks| > 1 && (toks[0] == Open || toks[1] == Close) ==>
            WrittenAt(s, n, Render(toks[1..])) && n + |Render(toks[1..])| == |s|)
      && (|toks| > 1 && !(toks[0] == Open || toks[1] == Close) ==>
            s[n] == ' ' && WrittenAt(s, n + 1, Render(toks[1..])) && n + 1 + |Render(toks[1..])| == |s|)
  {
    var w, n := Spelling(toks[0]), i + |Spelling(toks[0])|;
    if |toks| > 1 {
      var r := Render(toks[1..]);
      if toks[0] == Open || toks[1] == Close {
        WrittenConcat(s, i, w, r);
        if toks[0] != Open {
          RenderStart(toks[1..]);
          assert s[n + 0] == r[0];
        }
      } else {
        WrittenConcat(s, i, w + " ", r);
        WrittenConcat(s, i, w, " ");
        assert s[n + 0] == " "[0];
      }
    }
  }

  /** A keyword written at i, followed by a delimiter or the end, is that keyword's word. */
  lemma KeywordWordAt(s: string, i: nat, w: string)
    requires IsKeyword(w) && WrittenAt(s, i, w)
    requires i + |w| == |s| || IsDelim(s[i + |w|])
    ensures WordEnd(s, i) == i + |w| && KeywordAt(s, i, i + |w|)
    ensures AndAt(s, i, i + |w|) <==> w == "AND"
  {
    forall k | i <= k < i + |w| ensures !IsDelim(s[k]) {
      assert s[i + (k - i)] == w[k - i];
    }
    WordEndAt(s, i, i + |w|);
    assert s[i + 0] == w[0] && s[i + 1] == w[1];
    if w == "AND" {
      assert s[i + 2] == w[2];
    }
  }

  /** A written-out parenthesis or keyword starts with a character that begins no clause. */
  lemma NonClauseTokenAt(s: string, j: nat, toks: seq<Token>)
    requires WrittenAt(s, j, Render(toks)) && j + |Render(toks)| == |s| && Renderable(toks)
    requires toks != [] && !toks[0].Clause?
    ensures j < |s| && !IsSpace(s[j]) && !ClauseWordAt(s, j)
  {
    RenderFront(s, j, toks);
    var w := Spelling(toks[0]);
    assert s[j + 0] == w[0];
    if IsKeyword(w) {
      KeywordWordAt(s, j, w);
    }
  }

  /** After a written-out clause that the next token does not continue, no clause word follows. */
  lemma NoClauseAfter(s: string, i: nat, toks: seq<Token>)
    requires WrittenAt(s, i, Render(toks)) && i + |Render(toks)| == |s| && Renderable(toks)
    requires toks != [] && toks[0].Clause?
    ensures var n := i + |Spelling(toks[0])|; n <= |s| && !ClauseWordAt(s, SkipSpaces(s, n))
  {
    RenderFront(s, i, toks);
    var n := i + |Spelling(toks[0])|;
    if |toks| > 1 {
      if toks[1] == Close {
        NonClauseTokenAt(s, n, toks[1..]);
      } else {
        NonClauseTokenAt(s, n + 1, toks[1..]);
        SkipSpacesAt(s, n, n + 1);
      }
    }
  }

  /** A word of t written at i, ending at a delimiter or the end of t, is the same word in s. */
  lemma WordTransfer(s: string, i: nat, t: string, k: nat)
    requires WrittenAt(s, i, t) && (i + |t| == |s| || IsDelim(s[i + |t|]))
    requires k < |t| && !IsDelim(t[k])
    ensures WordEnd(s, i + k) == i + WordEnd(t, k)
    ensures KeywordAt(s, i + k, WordEnd(s, i + k)) <==> KeywordAt(t, k, WordEnd(t, k))
  {
    var jt := WordEnd(t, k);
    forall p | i + k <= p < i + jt ensures !IsDelim(s[p]) {
      assert s[i + (p - i)] == t[p - i];
    }
    assert jt < |t| ==> s[i + jt] == t[jt];
    WordEndAt(s, i + k, i + jt);
    KeywordAtWritten(s, i, t, k, jt);
  }

  /**
   * The span [a, m) of s reads as one clause: it starts with a word that is
   * no keyword, every later word is no keyword, it holds no parenthesis,
   * ends on a non-blank and is followed by a delimiter or the end.
   */
  predicate ClauseSpan(s: string, a: nat, m: nat)
  {
    && a < m <= |s|
    && !IsDelim(s[a]) && !KeywordAt(s, a, WordEnd(s, a))
    && !IsSpace(s[m - 1])
    && (m == |s| || IsDelim(s[m]))
    && (forall p :: a <= p < m ==> !IsParen(s[p]))
    && (forall p :: a < p < m && WordStart(s, p) ==> !KeywordAt(s, p, WordEnd(s, p)))
  }

  /** One step of ClauseEnd: the clause goes on at the next word b when that is a clause word. */
  lemma ClauseEndStep(s: string, a: nat, j: nat, b: nat)
    requires a <= |s| && ClauseWordAt(s, a) && WordEnd(s, a) == j && SkipSpaces(s, j) == b
    ensures ClauseWordAt(s, b) ==> ClauseEnd(s, a) == ClauseEnd(s, b)
    ensures !ClauseWordAt(s, b) ==> ClauseEnd(s, a) == j
  {
  }

  /** A clause span that no clause word follows is exactly the clause ClauseEnd finds. */
  lemma {:induction false} ClauseEndSpan(s: string, a: nat, m: nat)
    requires ClauseSpan(s, a, m) && !ClauseWordAt(s, SkipSpaces(s, m))
    ensures ClauseWordAt(s, a) && ClauseEnd(s, a) == m
    decreases m - a
  {
    var j := WordEnd(s, a);
    if j < m {
      var b := SkipSpaces(s, j);
      assert WordStart(s, b);
      ClauseEndSpan(s, b, m);
      ClauseEndStep(s, a, j, b);
    } else {
      ClauseEndStep(s, a, j, SkipSpaces(s, j));
    }
  }

  /** A well-formed clause text written at i, followed by a delimiter or the end, is a clause span. */
  lemma ClauseSpanOf(s: string, i: nat, t: string)
    requires WrittenAt(s, i, t) && IsClauseText(t)
    requires i + |t| == |s| || IsDelim(s[i + |t|])
    ensures ClauseSpan(s, i, i + |t|)
  {
    var m := i + |t|;
    assert s[i + 0] == t[0] && s[i + (|t| - 1)] == t[|t| - 1];
    assert WordStart(t, 0);
    WordTransfer(s, i, t, 0);
    forall p | i <= p < m ensures !IsParen(s[p]) {
      assert s[i + (p - i)] == t[p - i];
    }
    forall p | i < p < m && WordStart(s, p) ensures !KeywordAt(s, p, WordEnd(s, p)) {
      assert s[i + (p - i)] == t[p - i] && s[i + (p - i - 1)] == t[p - i - 1];
      assert WordStart(t, p - i);
      WordTransfer(s, i, t, p - i);
    }
  }

  /** A clause text written at i, followed by a token that does not continue it, lexes as that clause. */
  lemma LexClauseAt(s: string, i: nat, t: string)
    requires WrittenAt(s, i, t) && IsClauseText(t)
    requires i + |t| == |s| || IsDelim(s[i + |t|])
    requires !ClauseWordAt(s, SkipSpaces(s, i + |t|))
    ensures LexFrom(s, i) == [Clause(t)] + LexFrom(s, i + |t|)
  {
    ClauseSpanOf(s, i, t);
    ClauseEndSpan(s, i, i + |t|);
    LexClauseStep(s, i);
    WrittenSlice(s, i, t);
  }

  /** A text written at i is the slice of s it covers. */
  lemma WrittenSlice(s: string, i: nat, t: string)
    requires WrittenAt(s, i, t)
    ensures s[i..i + |t|] == t
  {
    WrittenPart(s, i, t, 0, |t|);
    assert t[0..|t|] == t;
  }

  /** At a clause word the tokenizer yields the clause up to ClauseEnd. */
  lemma LexClauseStep(s: string, i: nat)
    requires i <= |s| && ClauseWordAt(s, i)
    ensures LexFrom(s, i) == [Clause(s[i..ClauseEnd(s, i)])] + LexFrom(s, ClauseEnd(s, i))
  {
  }

  /** A keyword written at i, followed by a delimiter or the end, lexes as its operator token. */
  lemma LexKeywordAt(s: string, i: nat, w: string)
    requires IsKeyword(w) && WrittenAt(s, i, w)
    requires i + |w| == |s| || IsDelim(s[i + |w|])
    ensures LexFrom(s, i) == [if w == "AND" then AndOp else OrOp] + LexFrom(s, i + |w|)
  {
    KeywordWordAt(s, i, w);
    assert s[i + 0] == w[0];
  }

  /** The first token of a written-out list is read back first. */
  lemma LexFront(s: string, i: nat, toks: seq<Token>)
    requires WrittenAt(s, i, Render(toks)) && i + |Render(toks)| == |s| && Renderable(toks) && toks != []
    ensures LexFrom(s, i) == [toks[0]] + LexFrom(s, i + |Spelling(toks[0])|)
  {
    RenderFront(s, i, toks);
    match toks[0]
    case Open =>
      assert s[i + 0] == Spelling(toks[0])[0];
    case Close =>
      assert s[i + 0] == Spelling(toks[0])[0];
    case AndOp =>
      LexKeywordAt(s, i, "AND");
    case OrOp =>
      LexKeywordAt(s, i, "OR");
    case Clause(t) =>
      NoClauseAfter(s, i, toks);
      LexClauseAt(s, i, t);
  }

  /** Where the rest of a written-out list starts: after the first token and the blank, if any. */
  function RestAt(i: nat, toks: seq<Token>): nat
    requires |toks| > 1
  {
    i + |Spelling(toks[0])| + if toks[0] == Open || toks[1] == Close then 0 else 1
  }

  /** The rest of a written-out list is written out from RestAt on, and nothing is read in between. */
  lemma RenderRest(s: string, i: nat, toks: seq<Token>)
    requires WrittenAt(s, i, Render(toks)) && i + |Render(toks)| == |s| && Renderable(toks) && |toks| > 1
    ensures var m := RestAt(i, toks);
      && WrittenAt(s, m, Render(toks[1..])) && m + |Render(toks[1..])| == |s|
      && LexFrom(s, i + |Spelling(toks[0])|) == LexFrom(s, m)
  {
    RenderFront(s, i, toks);
  }

  /** Reading back a written-out token list from position i gives the list. */
  lemma {:induction false} LexFromRender(s: string, i: nat, toks: seq<Token>)
    requires WrittenAt(s, i, Render(toks)) && i + |Render(toks)| == |s| && Renderable(toks)
    ensures LexFrom(s, i) == toks
    decreases |toks|
  {
    if toks != [] {
      LexFront(s, i, toks);
      if |toks| > 1 {
        RenderRest(s, i, toks);
        LexFromRender(s, RestAt(i, toks), toks[1..]);
      } else {
        RenderFront(s, i, toks);
      }
      assert toks == [toks[0]] + toks[1..];
    }
  }

  /** Tokenizing a written-out token list gives the list back. */
  lemma LexRender(toks: seq<Token>)
    requires Renderable(toks)
    ensures Lex(Render(toks)) == toks
  {
    var s := Render(toks);
    assert WrittenAt(s, 0, s);
    LexFromRender(s, 0, toks);
  }

  // ---------------------------------------------------------------------
  // Query strings of the shapes the tests use

  predicate IsOperator(t: Token)
  {
    t == AndOp || t == OrOp
  }

  /** An operator written between two operands. */
  function OpText(op: Token): string
    requires IsOperator(op)
  {
    " " + Spelling(op) + " "
  }

  /** A clause text none of whose characters is a parenthesis, an 'A' or an 'O' holds no keyword. */
  lemma PlainClauseText(t: string)
    requires |t| > 0 && !IsSpace(t[0]) && !IsSpace(t[|t| - 1])
    requires forall k :: 0 <= k < |t| ==> !IsParen(t[k]) && t[k] != 'A' && t[k] != 'O'
    ensures IsClauseText(t)
  {
  }

  /** One clause text is one clause token. */
  lemma LexSingle(a: string)
    requires IsClauseText(a)
    ensures Lex(a) == [Clause(a)]
  {
    LexRender([Clause(a)]);
  }

  /** What is written between two neighbouring tokens. */
  function Gap(t: Token, u: Token): string
  {
    if t == Open || u == Close then "" else " "
  }

  /** Writing a token in front of a non-empty list. */
  lemma RenderCons(t: Token, rest: seq<Token>)
    requires rest != []
    ensures Render([t] + rest) == Spelling(t) + Gap(t, rest[0]) + Render(rest)
  {
    assert ([t] + rest)[1..] == rest;
  }

  /** A token may go in front of a list that survives being written out, unless both are clauses. */
  lemma RenderableCons(t: Token, rest: seq<Token>)
    requires t.Clause? ==> IsClauseText(t.text)
    requires rest != [] ==> !(t.Clause? && rest[0].Clause?)
    requires Renderable(rest)
    ensures Renderable([t] + rest)
  {
    assert ([t] + rest)[1..] == rest;
  }

  /** Regrouping a concatenation. */
  lemma Regroup(x: string, y: string, z: string)
    ensures x + (y + z) == x + y + z
  {
  }

  /** An operator written between x and y, spelled out. */
  lemma OpBetween(x: string, op: Token, y: string)
    requires IsOperator(op)
    ensures x + " " + (Spelling(op) + " " + y) == x + OpText(op) + y
  {
  }

  /** A clause and an operator in front of a list that starts with neither `)` nor a clause. */
  lemma RenderClauseOp(a: string, op: Token, rest: seq<Token>)
    requires IsOperator(op) && rest != [] && rest[0] != Close
    ensures Render([Clause(a), op] + rest) == a + OpText(op) + Render(rest)
    ensures IsClauseText(a) && Renderable(rest) ==> Renderable([Clause(a), op] + rest)
  {
    var t1 := [op] + rest;
    assert [Clause(a)] + t1 == [Clause(a), op] + rest;
    RenderCons(op, rest);
    RenderCons(Clause(a), t1);
    OpBetween(a, op, Render(rest));
    if IsClauseText(a) && Renderable(rest) {
      RenderableCons(op, rest);
      RenderableCons(Clause(a), t1);
    }
  }

  /** `a AND b` and `a OR b` are a clause, the operator and a clause. */
  lemma LexPair(a: string, op: Token, b: string)
    requires IsClauseText(a) && IsClauseText(b) && IsOperator(op)
    ensures Lex(a + OpText(op) + b) == [Clause(a), op, Clause(b)]
  {
    RenderableCons(Clause(b), []);
    assert [Clause(b)] + [] == [Clause(b)];
    RenderClauseOp(a, op, [Clause(b)]);
    assert [Clause(a), op] + [Clause(b)] == [Clause(a), op, Clause(b)];
    LexRender([Clause(a), op, Clause(b)]);
  }

  /** `a op1 b op2 c`: three clauses with the two operators between them. */
  lemma LexChain(a: string, op1: Token, b: string, op2: Token, c: string)
    requires IsClauseText(a) && IsClauseText(b) && IsClauseText(c) && IsOperator(op1) && IsOperator(op2)
    ensures Lex(a + OpText(op1) + b + OpText(op2) + c) == [Clause(a), op1, Clause(b), op2, Clause(c)]
  {
    var rest := [Clause(b), op2, Clause(c)];
    RenderableCons(Clause(c), []);
    assert [Clause(c)] + [] == [Clause(c)];
    RenderClauseOp(b, op2, [Clause(c)]);
    assert [Clause(b), op2] + [Clause(c)] == rest;
    RenderClauseOp(a, op1, rest);
    assert [Clause(a), op1] + rest == [Clause(a), op1, Clause(b), op2, Clause(c)];
    Regroup(a + OpText(op1), b + OpText(op2), c);
    Regroup(a + OpText(op1), b, OpText(op2));
    LexRender([Clause(a), op1, Clause(b), op2, Clause(c)]);
  }

  /** How `(b op c)` is written. */
  lemma RenderGroup(b: string, op: Token, c: string)
    requires IsOperator(op)
    ensures Render([Open, Clause(b), op, Clause(c), Close]) == "(" + (b + OpText(op) + (c + ")"))
    ensures IsClauseText(b) && IsClauseText(c) ==> Renderable([Open, Clause(b), op, Clause(c), Close])
  {
    var t2 := [Clause(c), Close];
    RenderCons(Clause(c), [Close]);
    assert [Clause(c)] + [Close] == t2;
    RenderClauseOp(b, op, t2);
    var t1 := [Clause(b), op] + t2;
    RenderCons(Open, t1);
    assert [Open] + t1 == [Open, Clause(b), op, Clause(c), Close];
    if IsClauseText(b) && IsClauseText(c) {
      RenderableCons(Close, []);
      RenderableCons(Clause(c), [Close]);
      RenderableCons(Open, t1);
    }
  }

  /** `a op1 (b op2 c)`: a clause, the operator and a parenthesised pair. */
  lemma LexNested(a: string, op1: Token, b: string, op2: Token, c: string)
    requires IsClauseText(a) && IsClauseText(b) && IsClauseText(c) && IsOperator(op1) && IsOperator(op2)
    ensures Lex(a + OpText(op1) + "(" + b + OpText(op2) + c + ")") ==
            [Clause(a), op1, Open, Clause(b), op2, Clause(c), Close]
  {
    var group := [Open, Clause(b), op2, Clause(c), Close];
    RenderGroup(b, op2, c);
    RenderClauseOp(a, op1, group);
    assert [Clause(a), op1] + group == [Clause(a), op1, Open, Clause(b), op2, Clause(c), Close];
    var x := a + OpText(op1);
    var y := b + OpText(op2);
    Regroup(x, "(", y + (c + ")"));
    Regroup(x + "(", y, c + ")");
    Regroup(x + "(" + y, c, ")");
    Regroup(x + "(", b, OpText(op2));
    LexRender([Clause(a), op1, Open, Clause(b), op2, Clause(c), Close]);
  }
}
