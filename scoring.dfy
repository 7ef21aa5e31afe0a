/**
 * The row-level parts of a recommendation: the optional filters, the
 * ingredient-overlap ratio, the blended final score, the descending sort and
 * the `head(top_k)` cut.
 */
module Scoring {
  import opened Wrappers
  import opened TextUtil
  import opened Tables

  // ---------------------------------------------------------------------------
  // Filters

  /** The `filters` dictionary: each entry may be absent. */
  datatype Filters = Filters(isVeg: Option<bool>, maxTime: Option<real>, cuisine: Option<string>)

  /** Element-wise `cell == flag` as pandas evaluates it: booleans and the numbers 1 and 0 compare equal to True and False. */
  predicate EqualsFlag(c: Cell, v: bool): (b: bool)
    ensures b ==> c.Flag? || c.Num?
  {
    match c
    case Flag(b) => b == v
    case Num(x, _) => x == (if v then 1.0 else 0.0)
    case Str(_) => false
    case Missing => false
  }

  /** `pd.to_numeric(cell, errors='coerce').fillna(9999)`. */
  function PrepTime(c: Cell): real
  {
    match c
    case Num(x, _) => x
    case Flag(b) => if b then 1.0 else 0.0
    case Str(s) => (match ParseDecimal(s) case Some(v) => v case None => 9999.0)
    case Missing => 9999.0
  }

  /** `cell.str.contains(pattern, case=False, na=False)`, with the pattern read as plain text. */
  predicate CuisineMatches(c: Cell, pattern: string): (b: bool)
    ensures b ==> c.Str?
    ensures c.Str? && pattern == "" ==> b
  {
    c.Str? && Contains(Lower(c.s), Lower(pattern))
  }

  /** No cell equals both True and False, and a boolean cell equals one of them. */
  lemma FlagMatchesOne(c: Cell)
    ensures !(EqualsFlag(c, true) && EqualsFlag(c, false))
    ensures c.Flag? ==> EqualsFlag(c, true) || EqualsFlag(c, false)
  {
  }

  /** `case=False`: lower-casing the pattern or the cell's text does not change the match. */
  lemma {:induction false} CuisineIgnoresCase(c: Cell, pattern: string)
    ensures CuisineMatches(c, Lower(pattern)) == CuisineMatches(c, pattern)
    ensures c.Str? ==> CuisineMatches(Str(Lower(c.s)), pattern) == CuisineMatches(c, pattern)
  {
    LowerOfLowerIsSame(Lower(pattern));
    if c.Str? {
      LowerOfLowerIsSame(Lower(c.s));
    }
  }

  /**
   * Row `i` survives every active filter. The `is_veg` and `max_time` filters
   * are skipped when their column is absent; the cuisine filter reads the
   * `cuisine` column that `fit` always creates.
   */
  predicate Passes(t: Table, f: Filters, i: nat)
    requires WellFormed(t) && i < t.rows
  {
    && (f.isVeg.Some? && "is_veg" in t.names ==> EqualsFlag(Column(t, "is_veg")[i], f.isVeg.value))
    && (f.maxTime.Some? && "prep_time" in t.names ==> PrepTime(Column(t, "prep_time")[i]) <= f.maxTime.value)
    && (f.cuisine.Some? && f.cuisine.value != "" ==> CuisineMatches(Column(t, "cuisine")[i], f.cuisine.value))
  }

  // ---------------------------------------------------------------------------
  // Scores

  function TokenSet(s: string): set<string>
  {
    set w | w in Words(s)
  }

  lemma {:induction false} SubsetCard<T>(a: set<T>, b: set<T>)
    requires a <= b
    ensures |a| <= |b|
    decreases |a|
  {
    if a != {} {
      var x :| x in a;
      SubsetCard(a - {x}, b - {x});
    }
  }

  lemma RatioBounds(c: nat, a: nat)
    requires 0 < a && c <= a
    ensures 0.0 <= (c as real) / (a as real) <= 1.0
  {
    assert (c as real) <= (a as real);
  }

  /**
   * `overlap_score`: the share of the recipe's distinct tokens that the query
   * also has; 0 for a recipe without tokens.
   */
  function Overlap(recipe: string, query: string): (r: real)
    ensures 0.0 <= r <= 1.0
  {
    Share(TokenSet(recipe), TokenSet(query))
  }

  /** `len(a & q) / len(a)`, or 0 when `a` is empty. */
  function Share(a: set<string>, q: set<string>): (r: real)
    ensures 0.0 <= r <= 1.0
  {
    var common := a * q;
    if |a| == 0 then 0.0
    else
      SubsetCard(common, a);
      RatioBounds(|common|, |a|);
      (|common| as real) / (|a| as real)
  }

  lemma ShareExtremes(a: set<string>, q: set<string>)
    ensures a == {} ==> Share(a, q) == 0.0
    ensures a * q == {} ==> Share(a, q) == 0.0
    ensures a != {} && a <= q ==> Share(a, q) == 1.0
  {
    if a != {} && a <= q {
      assert a * q == a;
    }
  }

  /** No recipe tokens, or none in common: 0; every recipe token in the query: 1. */
  lemma OverlapExtremes(recipe: string, query: string)
    ensures TokenSet(recipe) == {} ==> Overlap(recipe, query) == 0.0
    ensures TokenSet(recipe) * TokenSet(query) == {} ==> Overlap(recipe, query) == 0.0
    ensures TokenSet(recipe) != {} && TokenSet(recipe) <= TokenSet(query) ==> Overlap(recipe, query) == 1.0
  {
    ShareExtremes(TokenSet(recipe), TokenSet(query));
  }

  /** `final_score = 0.6 * score + 0.4 * ing_overlap`; it stays in [0, 1] when the similarity does. */
  function FinalScore(similarity: real, overlap: real): (r: real)
    ensures 0.0 <= similarity <= 1.0 && 0.0 <= overlap <= 1.0 ==> 0.0 <= r <= 1.0
    ensures r - 0.6 * similarity == 0.4 * overlap
  {
    0.6 * similarity + 0.4 * overlap
  }

  /** A higher final score never comes from a lower similarity and a lower overlap. */
  lemma FinalScoreMonotone(s1: real, o1: real, s2: real, o2: real)
    requires s1 <= s2 && o1 <= o2
    ensures FinalScore(s1, o1) <= FinalScore(s2, o2)
  {
  }

  // ---------------------------------------------------------------------------
  // Sorting and the cut

  /** A row together with its final score. */
  datatype Scored = Scored(row: nat, score: real)

  ghost predicate NonIncreasing(s: seq<Scored>)
  {
    forall i, j :: 0 <= i < j < |s| ==> s[i].score >= s[j].score
  }

  /** Inserts `x` before the first element with a smaller score. */
  function InsertDesc(x: Scored, s: seq<Scored>): (r: seq<Scored>)
    ensures multiset(r) == multiset(s) + multiset{x}
    ensures |r| == |s| + 1
  {
    if s == [] then [x]
    else if s[0].score <= x.score then [x] + s
    else
      assert s == [s[0]] + s[1..];
      [s[0]] + InsertDesc(x, s[1..])
  }

  /** Inserting into a non-increasing sequence keeps it non-increasing. */
  lemma {:induction false} InsertDescSorted(x: Scored, s: seq<Scored>)
    requires NonIncreasing(s)
    ensures NonIncreasing(InsertDesc(x, s))
  {
    if s != [] && s[0].score > x.score {
      InsertDescSorted(x, s[1..]);
      var t := InsertDesc(x, s[1..]);
      forall k | 0 <= k < |t|
        ensures t[k].score <= s[0].score
      {
        assert t[k] in multiset(s[1..]) + multiset{x};
        if t[k] != x {
          assert t[k] in s[1..];
        }
      }
    }
  }

  /** `sort_values('final_score', ascending=False)`: one of the orders that non-stable sort may produce. */
  function SortDesc(s: seq<Scored>): (r: seq<Scored>)
    ensures multiset(r) == multiset(s)
    ensures |r| == |s|
    ensures NonIncreasing(r)
  {
    if s == [] then []
    else
      assert s == [s[0]] + s[1..];
      InsertDescSorted(s[0], SortDesc(s[1..]));
      InsertDesc(s[0], SortDesc(s[1..]))
  }

  /** The length of `head(k)` on `n` rows: a negative `k` drops the last `-k` rows. */
  function TopCount(k: int, n: nat): (r: nat)
    ensures r <= n
    ensures k >= 0 ==> r == if k < n then k else n
    ensures k < 0 ==> r == if n + k > 0 then n + k else 0
  {
    if k >= 0 then (if k < n then k else n)
    else if n + k > 0 then n + k else 0
  }

  /**
   * After a descending sort, whatever the cut at `n` keeps scores at least as
   * high as whatever it drops.
   */
  lemma CutKeepsTheBest(s: seq<Scored>, n: nat, x: Scored)
    requires NonIncreasing(s) && n <= |s|
    requires x in multiset(s) && x !in multiset(s[..n])
    ensures forall j :: 0 <= j < n ==> s[j].score >= x.score
  {
    assert s == s[..n] + s[n..];
    assert x in s[n..];
    var k :| 0 <= k < |s[n..]| && s[n..][k] == x;
    assert s[n + k] == x;
  }

  /** Every row appears once, in increasing order (the candidates before sorting). */
  ghost predicate RowsIncreasing(s: seq<Scored>)
  {
    forall a, b :: 0 <= a < b < |s| ==> s[a].row < s[b].row
  }

  lemma {:induction false} AtMostOnce(s: seq<Scored>, x: Scored)
    requires RowsIncreasing(s)
    ensures multiset(s)[x] <= 1
  {
    if s != [] {
      assert s == [s[0]] + s[1..];
      assert RowsIncreasing(s[1..]);
      AtMostOnce(s[1..], x);
      if x == s[0] {
        assert forall k :: 0 <= k < |s[1..]| ==> s[1..][k].row > x.row;
        assert x !in s[1..];
      }
    }
  }

  lemma TwiceCounted(s: seq<Scored>, a: nat, b: nat)
    requires a < b < |s| && s[a] == s[b]
    ensures multiset(s)[s[a]] >= 2
  {
    assert s == s[..b] + s[b..];
    assert s[a] == s[..b][a];
    assert s[b] == s[b..][0];
  }

  /** Sorting candidates with distinct rows keeps the rows distinct. */
  lemma SortedRowsDistinct(cand: seq<Scored>, sorted: seq<Scored>, a: nat, b: nat)
    requires RowsIncreasing(cand) && multiset(sorted) == multiset(cand)
    requires a < b < |sorted|
    ensures sorted[a].row != sorted[b].row
  {
    if sorted[a].row == sorted[b].row {
      assert sorted[a] in multiset(cand) && sorted[b] in multiset(cand);
      var m1 :| 0 <= m1 < |cand| && cand[m1] == sorted[a];
      var m2 :| 0 <= m2 < |cand| && cand[m2] == sorted[b];
      assert m1 == m2;
      TwiceCounted(sorted, a, b);
      AtMostOnce(cand, sorted[a]);
    }
  }
}
