/**
 * The recommender object: it loads a recipe table, prepares it and fits a
 * TF-IDF vectoriser on it, and ranks the recipes for a list of ingredients.
 * The vectoriser is abstract: fitting it either succeeds or fails (decided by
 * an oracle), and the cosine similarities of a query against every row are an
 * input.
 */
module Recommender {
  import opened Wrappers
  import opened TextUtil
  import opened Preprocessing
  import opened Tables
  import opened Schema
  import opened Fitting
  import opened Scoring

  /** A vectoriser configuration: the longest n-gram and the minimum document frequency. */
  datatype Vectorizer = Vectorizer(ngramMax: nat, minDf: nat)

  /** `TfidfVectorizer(ngram_range=(1, 2), min_df=2)`, tried first. */
  const Primary: Vectorizer := Vectorizer(2, 2)

  /** `TfidfVectorizer(ngram_range=(1, 1), min_df=1)`, for small or dirty tables. */
  const Backup: Vectorizer := Vectorizer(1, 1)

  /** A vectoriser and, once fitted, the documents it was fitted on. */
  datatype Tfidf = Tfidf(config: Vectorizer, corpus: Option<seq<string>>)

  /** Whether `fit_transform` with a configuration succeeds on the documents. */
  type FitOracle = (Vectorizer, seq<string>) -> bool

  /** The exceptions the three operations raise. */
  datatype Error =
    | NoCsv                // FileNotFoundError from load_data
    | NoIngredientColumn   // ValueError from fit
    | VectorizerFailed     // the exception of the second fit_transform
    | NotFitted            // RuntimeError from recommend
    | VectorizerNotFitted  // the exception of tfidf.transform on an unfitted vectoriser
    | EmptyOverlap         // the ValueError of storing `apply`'s result on a frame no row passed

  /** One result record: the projected columns and the final score. */
  datatype Record = Record(fields: map<string, Cell>, finalScore: real)

  /** The columns a record may carry, besides `final_score`. */
  const RecordColumns: seq<string> := ["title", "ingredients", "instructions", "cuisine", "prep_time", "image_url"]

  /** The columns `fit` guarantees in the table it keeps. */
  ghost predicate HasFitColumns(t: Table)
  {
    && "ingredients_clean" in t.names && "cuisine" in t.names && "title" in t.names
    && "instructions" in t.names && "search_text" in t.names
  }

  // ---------------------------------------------------------------------------
  // What `fit` does, as a specification

  /**
   * The outcome of `fit` once the table `t` is loaded: the error when no
   * ingredient column exists, otherwise what fitting the vectoriser on the
   * prepared table gives. `df1`, `tfidf1`, `vectors1`, `fitted1` are the
   * fields afterwards, `tfidf0`, `vectors0`, `fitted0` before.
   */
  ghost predicate FitOutcome(t: Table, parse: LiteralParser, canFit: FitOracle, r: Result<(), Error>,
                             df1: Option<Table>, tfidf1: Option<Tfidf>, vectors1: Option<seq<string>>, fitted1: bool,
                             tfidf0: Option<Tfidf>, vectors0: Option<seq<string>>, fitted0: bool): (b: bool)
    requires WellFormed(t)
    ensures b ==> (r == Err(NoIngredientColumn) <==> forall j :: 0 <= j < |t.names| ==> !IsIngredientColumn(t, j))
    ensures b ==> r.Ok? || r == Err(NoIngredientColumn) || r == Err(VectorizerFailed)
    ensures b && r.Ok? ==> fitted1 && vectors1.Some? && exists j :: 0 <= j < |t.names| && IsIngredientColumn(t, j)
    ensures b && r.Err? ==> vectors1 == vectors0 && fitted1 == fitted0 && df1 == Some(t)
  {
    if forall j :: 0 <= j < |t.names| ==> !IsIngredientColumn(t, j) then
      r == Err(NoIngredientColumn) && df1 == Some(t) && tfidf1 == tfidf0 && vectors1 == vectors0 && fitted1 == fitted0
    else
      forall j :: 0 <= j < |t.names| && IsIngredientColumn(t, j) ==>
        VectorizeOutcome(t, Prepared(t, t.names[j], parse), canFit, r, df1, tfidf1, vectors1, fitted1, tfidf0, vectors0, fitted0)
  }

  /**
   * Fitting the vectoriser on the documents of the prepared table `d`: the
   * primary configuration when it fits, else the backup one when it fits,
   * else the error, with the backup vectoriser left unfitted and the loaded
   * table `t` kept.
   */
  ghost predicate VectorizeOutcome(t: Table, d: Table, canFit: FitOracle, r: Result<(), Error>,
                                   df1: Option<Table>, tfidf1: Option<Tfidf>, vectors1: Option<seq<string>>, fitted1: bool,
                                   tfidf0: Option<Tfidf>, vectors0: Option<seq<string>>, fitted0: bool): (b: bool)
    requires WellFormed(d)
    ensures b ==> (r.Ok? <==> canFit(Primary, Documents(d)) || canFit(Backup, Documents(d)))
    ensures b && r.Ok? ==> fitted1 && df1 == Some(d) && vectors1 == Some(Documents(d))
                           && tfidf1.Some? && tfidf1.value.corpus == Some(Documents(d))
    ensures b && r.Err? ==> r == Err(VectorizerFailed) && df1 == Some(t) && vectors1 == vectors0 && fitted1 == fitted0
  {
    var docs := Documents(d);
    if canFit(Primary, docs) then
      r == Ok(()) && df1 == Some(d) && tfidf1 == Some(Tfidf(Primary, Some(docs))) && vectors1 == Some(docs) && fitted1
    else if canFit(Backup, docs) then
      r == Ok(()) && df1 == Some(d) && tfidf1 == Some(Tfidf(Backup, Some(docs))) && vectors1 == Some(docs) && fitted1
    else
      r == Err(VectorizerFailed) && df1 == Some(t) && tfidf1 == Some(Tfidf(Backup, None))
      && vectors1 == vectors0 && fitted1 == fitted0
  }

  lemma NoColumnOutcome(t: Table, parse: LiteralParser, canFit: FitOracle,
                        tfidf0: Option<Tfidf>, vectors0: Option<seq<string>>, fitted0: bool)
    requires WellFormed(t) && forall j :: 0 <= j < |t.names| ==> !IsIngredientColumn(t, j)
    ensures FitOutcome(t, parse, canFit, Err(NoIngredientColumn), Some(t), tfidf0, vectors0, fitted0, tfidf0, vectors0, fitted0)
  {
  }

  lemma ColumnOutcome(t: Table, k: nat, parse: LiteralParser, canFit: FitOracle, r: Result<(), Error>,
                      df1: Option<Table>, tfidf1: Option<Tfidf>, vectors1: Option<seq<string>>, fitted1: bool,
                      tfidf0: Option<Tfidf>, vectors0: Option<seq<string>>, fitted0: bool)
    requires WellFormed(t) && IsIngredientColumn(t, k)
    requires VectorizeOutcome(t, Prepared(t, t.names[k], parse), canFit, r, df1, tfidf1, vectors1, fitted1, tfidf0, vectors0, fitted0)
    ensures FitOutcome(t, parse, canFit, r, df1, tfidf1, vectors1, fitted1, tfidf0, vectors0, fitted0)
  {
    IngredientColumnUnique(t, k);
  }

  // ---------------------------------------------------------------------------
  // What `recommend` does, as a specification

  /** The rows of the first `n` that pass the filters, in table order. */
  function PassingRows(t: Table, f: Filters, n: nat): (r: seq<nat>)
    requires WellFormed(t) && n <= t.rows
    ensures forall j :: 0 <= j < |r| ==> r[j] < n && Passes(t, f, r[j])
    ensures forall a, b :: 0 <= a < b < |r| ==> r[a] < r[b]
    ensures forall i :: 0 <= i < n && Passes(t, f, i) ==> i in r
  {
    if n == 0 then []
    else PassingRows(t, f, n - 1) + (if Passes(t, f, n - 1) then [n - 1] else [])
  }

  /** `final_score` of row `i`: its similarity blended with its ingredient overlap with the query. */
  function RowScore(t: Table, sims: seq<real>, query: string, i: nat): real
    requires WellFormed(t) && |sims| == t.rows && i < t.rows
  {
    FinalScore(sims[i], Overlap(Render(Column(t, "ingredients_clean")[i]), query))
  }

  /** The final score lies in [0, 1] when the similarity does. */
  lemma RowScoreBounds(t: Table, sims: seq<real>, query: string, i: nat)
    requires WellFormed(t) && |sims| == t.rows && i < t.rows
    requires 0.0 <= sims[i] <= 1.0
    ensures 0.0 <= RowScore(t, sims, query, i) <= 1.0
  {
  }

  /** `top[cols]` for one row: those of the record columns the table has. */
  function Project(t: Table, i: nat): (r: map<string, Cell>)
    requires WellFormed(t) && i < t.rows
    ensures forall n :: n in r <==> n in RecordColumns && n in t.names
    ensures forall n :: n in r ==> r[n] == Column(t, n)[i]
  {
    map n | n in RecordColumns && n in t.names :: Column(t, n)[i]
  }

  /** Every candidate carries its row's final score. */
  ghost predicate ScoresRows(cand: seq<Scored>, rows: seq<nat>, t: Table, sims: seq<real>, query: string)
    requires WellFormed(t) && |sims| == t.rows
  {
    && |cand| == |rows|
    && forall j :: 0 <= j < |cand| ==> rows[j] < t.rows && cand[j] == Scored(rows[j], RowScore(t, sims, query, rows[j]))
  }

  /**
   * What `recommend` promises about its records: as many as `head(top_k)`
   * keeps of the passing rows; each from a distinct passing row, with that
   * row's projected columns and final score; non-increasing in final score;
   * and no passing row left out scores above a returned one.
   */
  ghost predicate Ranking(t: Table, f: Filters, sims: seq<real>, query: string, topK: int,
                          recs: seq<Record>, picked: seq<nat>)
    requires WellFormed(t) && |sims| == t.rows
  {
    && |recs| == |picked| == TopCount(topK, |PassingRows(t, f, t.rows)|)
    && RecordsOfRows(t, f, sims, query, recs, picked)
    && (forall a, b :: 0 <= a < b < |picked| ==> picked[a] != picked[b])
    && (forall a, b :: 0 <= a < b < |recs| ==> recs[a].finalScore >= recs[b].finalScore)
    && NoneLeftOutScoresHigher(t, f, sims, query, recs, picked)
  }

  /** Record `j` is the projection and final score of the passing row `picked[j]`. */
  ghost predicate RecordsOfRows(t: Table, f: Filters, sims: seq<real>, query: string, recs: seq<Record>, picked: seq<nat>)
    requires WellFormed(t) && |sims| == t.rows
  {
    && |recs| <= |picked|
    && forall j :: 0 <= j < |recs| ==>
         && picked[j] < t.rows && Passes(t, f, picked[j])
         && recs[j] == Record(Project(t, picked[j]), RowScore(t, sims, query, picked[j]))
  }

  /** Every passing row that was not picked scores at most what each record scores. */
  ghost predicate NoneLeftOutScoresHigher(t: Table, f: Filters, sims: seq<real>, query: string, recs: seq<Record>, picked: seq<nat>)
    requires WellFormed(t) && |sims| == t.rows
  {
    forall i, j :: 0 <= i < t.rows && Passes(t, f, i) && i !in picked && 0 <= j < |recs| ==>
      recs[j].finalScore >= RowScore(t, sims, query, i)
  }

  /** Every sorted candidate is a passing row with its own final score. */
  lemma SortedAreCandidates(t: Table, f: Filters, sims: seq<real>, query: string,
                            rows: seq<nat>, cand: seq<Scored>, sorted: seq<Scored>)
    requires WellFormed(t) && |sims| == t.rows
    requires rows == PassingRows(t, f, t.rows) && ScoresRows(cand, rows, t, sims, query)
    requires multiset(sorted) == multiset(cand)
    ensures forall j :: 0 <= j < |sorted| ==>
              sorted[j].row < t.rows && Passes(t, f, sorted[j].row) && sorted[j].score == RowScore(t, sims, query, sorted[j].row)
  {
    forall j | 0 <= j < |sorted|
      ensures sorted[j].row < t.rows && Passes(t, f, sorted[j].row)
      ensures sorted[j].score == RowScore(t, sims, query, sorted[j].row)
    {
      assert sorted[j] in multiset(cand);
      var m :| 0 <= m < |cand| && cand[m] == sorted[j];
    }
  }

  /** The sorted candidates come from distinct rows. */
  lemma SortedRowsUnique(t: Table, f: Filters, sims: seq<real>, query: string,
                         rows: seq<nat>, cand: seq<Scored>, sorted: seq<Scored>)
    requires WellFormed(t) && |sims| == t.rows
    requires rows == PassingRows(t, f, t.rows) && ScoresRows(cand, rows, t, sims, query)
    requires multiset(sorted) == multiset(cand)
    ensures forall a, b :: 0 <= a < b < |sorted| ==> sorted[a].row != sorted[b].row
  {
    assert RowsIncreasing(cand);
    forall a, b | 0 <= a < b < |sorted|
      ensures sorted[a].row != sorted[b].row
    {
      SortedRowsDistinct(cand, sorted, a, b);
    }
  }

  /** A passing row the cut drops scores no higher than any row it keeps. */
  lemma CutDominates(t: Table, f: Filters, sims: seq<real>, query: string,
                     rows: seq<nat>, cand: seq<Scored>, sorted: seq<Scored>, n: nat, i: nat)
    requires WellFormed(t) && |sims| == t.rows
    requires rows == PassingRows(t, f, t.rows) && ScoresRows(cand, rows, t, sims, query)
    requires multiset(sorted) == multiset(cand) && NonIncreasing(sorted) && n <= |sorted|
    requires i < t.rows && Passes(t, f, i)
    requires forall j :: 0 <= j < n ==> sorted[j].row != i
    ensures forall j :: 0 <= j < n ==> sorted[j].score >= RowScore(t, sims, query, i)
  {
    var x := Scored(i, RowScore(t, sims, query, i));
    var m :| 0 <= m < |rows| && rows[m] == i;
    assert cand[m] == x;
    assert x in multiset(sorted);
    assert forall j :: 0 <= j < n ==> sorted[..n][j] != x;
    CutKeepsTheBest(sorted, n, x);
  }

  // ---------------------------------------------------------------------------
  // The object

  class ChefRecommender {
    var df: Option<Table>
    var tfidf: Option<Tfidf>
    var vectors: Option<seq<string>>
    var fitted: bool

    /**
     * A fitted recommender holds the prepared table, a vectoriser and one
     * vector per row; a fitted vectoriser's documents are the vectors kept.
     */
    ghost predicate Valid()
      reads this
    {
      && (df.Some? ==> WellFormed(df.value))
      && (fitted ==> df.Some? && tfidf.Some? && vectors.Some? && |vectors.value| == df.value.rows
                     && HasFitColumns(df.value))
      && (tfidf.Some? && tfidf.value.corpus.Some? ==> vectors == tfidf.value.corpus)
    }

    constructor ()
      ensures Valid()
      ensures df == None && tfidf == None && vectors == None && !fitted
    {
      df := None;
      tfidf := None;
      vectors := None;
      fitted := false;
    }

    /**
     * `load_data`, given the first CSV found (if any) as a table: the table
     * with its columns renamed by the rename map.
     */
    method LoadData(found: Option<Table>) returns (r: Result<Table, Error>)
      requires Valid() && !fitted
      requires found.Some? ==> WellFormed(found.value)
      modifies this
      ensures Valid()
      ensures found.None? ==> r == Err(NoCsv) && df == old(df)
      ensures found.Some? ==> r == Ok(Loaded(found.value)) && df == Some(Loaded(found.value))
      ensures tfidf == old(tfidf) && vectors == old(vectors) && fitted == old(fitted)
    {
      if found.None? {
        return Err(NoCsv);
      }
      var t := found.value;
      var colmap := BuildColumnMap(t.names);
      var loaded := Table(Renamed(t.names, colmap), t.cols, t.rows);
      df := Some(loaded);
      r := Ok(loaded);
    }

    /**
     * `fit`: loads the table when none is loaded yet, finds the ingredient
     * column, prepares the table and fits the vectoriser, first with the
     * primary configuration and then with the backup one.
     */
    method Fit(found: Option<Table>, parse: LiteralParser, canFit: FitOracle) returns (r: Result<(), Error>)
      requires Valid()
      requires found.Some? ==> WellFormed(found.value)
      modifies this
      ensures Valid()
      ensures old(df).None? && found.None? ==>
                r == Err(NoCsv) && df == None && tfidf == old(tfidf) && vectors == old(vectors) && fitted == old(fitted)
      ensures old(df).Some? || found.Some? ==>
                var t := if old(df).Some? then old(df).value else Loaded(found.value);
                WellFormed(t) && FitOutcome(t, parse, canFit, r, df, tfidf, vectors, fitted, old(tfidf), old(vectors), old(fitted))
    {
      if df.None? {
        var loaded := LoadData(found);
        if loaded.Err? {
          return Err(NoCsv);
        }
      }
      r := FitLoaded(df.value, parse, canFit);
    }

    /** `fit` from the point where a table is loaded. */
    method FitLoaded(t: Table, parse: LiteralParser, canFit: FitOracle) returns (r: Result<(), Error>)
      requires Valid() && df == Some(t)
      modifies this
      ensures Valid()
      ensures FitOutcome(t, parse, canFit, r, df, tfidf, vectors, fitted, old(tfidf), old(vectors), old(fitted))
    {
      var k := IngredientColumn(t);
      if k.None? {
        NoColumnOutcome(t, parse, canFit, tfidf, vectors, fitted);
        return Err(NoIngredientColumn);
      }
      var d := PrepareTable(t, t.names[k.value], parse);
      PreparedHasColumns(t, t.names[k.value], parse);
      r := Vectorize(t, d, canFit);
      ColumnOutcome(t, k.value, parse, canFit, r, df, tfidf, vectors, fitted, old(tfidf), old(vectors), old(fitted));
    }

    /** The `try`/`except` around `fit_transform`, then the assignments that end `fit`. */
    method Vectorize(t: Table, d: Table, canFit: FitOracle) returns (r: Result<(), Error>)
      requires Valid() && df == Some(t) && WellFormed(d) && HasFitColumns(d)
      modifies this
      ensures Valid()
      ensures VectorizeOutcome(t, d, canFit, r, df, tfidf, vectors, fitted, old(tfidf), old(vectors), old(fitted))
    {
      var docs := Documents(d);
      if canFit(Primary, docs) {
        tfidf := Some(Tfidf(Primary, Some(docs)));
      } else if canFit(Backup, docs) {
        tfidf := Some(Tfidf(Backup, Some(docs)));
      } else {
        tfidf := Some(Tfidf(Backup, None));
        return Err(VectorizerFailed);
      }
      vectors := Some(docs);
      df := Some(d);
      fitted := true;
      r := Ok(());
    }

    /**
     * `recommend`, given the cosine similarity of the query against every row:
     * the filters, the overlap and final scores, the descending sort, the cut
     * at `top_k` and the projection of each record. The object is not changed.
     * When no row passes the filters the overlap column cannot be stored and
     * `recommend` raises.
     */
    method Recommend(raw: RawIngredients, parse: LiteralParser, topK: int, filters: Filters, sims: seq<real>)
      returns (r: Result<seq<Record>, Error>, ghost picked: seq<nat>)
      requires Valid()
      requires fitted ==> |sims| == df.value.rows
      ensures !fitted ==> r == Err(NotFitted)
      ensures fitted && tfidf.value.corpus.None? ==> r == Err(VectorizerNotFitted)
      ensures fitted && tfidf.value.corpus.Some? && PassingRows(df.value, filters, df.value.rows) == [] ==>
                r == Err(EmptyOverlap)
      ensures fitted && tfidf.value.corpus.Some? && PassingRows(df.value, filters, df.value.rows) != [] ==>
                r.Ok? && Ranking(df.value, filters, sims, CleanIngredients(raw, parse), topK, r.value, picked)
    {
      picked := [];
      if !fitted {
        return Err(NotFitted), picked;
      }
      if tfidf.value.corpus.None? {
        return Err(VectorizerNotFitted), picked;
      }
      var query := CleanIngredientText(raw, parse);
      r, picked := Rank(df.value, filters, sims, query, topK);
    }
  }

  /**
   * The ranking part of `recommend` on the table copy, for a cleaned query:
   * the error when no row passes the filters, the ranking otherwise.
   */
  method Rank(t: Table, f: Filters, sims: seq<real>, query: string, topK: int)
    returns (r: Result<seq<Record>, Error>, ghost picked: seq<nat>)
    requires WellFormed(t) && |sims| == t.rows
    ensures r.Err? <==> PassingRows(t, f, t.rows) == []
    ensures r.Err? ==> r.error == EmptyOverlap
    ensures r.Ok? ==> Ranking(t, f, sims, query, topK, r.value, picked)
  {
    picked := [];
    var c := Candidates(t, f, sims, query);
    if c.Err? {
      return Err(c.error), picked;
    }
    var cand := c.value;
    ghost var rows := PassingRows(t, f, t.rows);
    var sorted := SortDesc(cand);
    var n := TopCount(topK, |sorted|);
    SortedAreCandidates(t, f, sims, query, rows, cand, sorted);
    var recs := Records(t, sorted, n);
    picked := seq(n, j requires 0 <= j < n => sorted[j].row);
    RankingHolds(t, f, sims, query, topK, rows, cand, sorted, n, recs, picked);
    r := Ok(recs);
  }

  /**
   * The passing rows with their final scores: the filters, then the overlap
   * and final-score columns. On a frame with no row left, `apply` gives back
   * a frame rather than a column, and storing it as `ing_overlap` raises.
   */
  method Candidates(t: Table, f: Filters, sims: seq<real>, query: string) returns (r: Result<seq<Scored>, Error>)
    requires WellFormed(t) && |sims| == t.rows
    ensures r.Err? <==> PassingRows(t, f, t.rows) == []
    ensures r.Err? ==> r.error == EmptyOverlap
    ensures r.Ok? ==> |r.value| == |PassingRows(t, f, t.rows)|
    ensures r.Ok? ==> forall j :: 0 <= j < |r.value| ==>
              r.value[j] == Scored(PassingRows(t, f, t.rows)[j], RowScore(t, sims, query, PassingRows(t, f, t.rows)[j]))
  {
    var cand := [];
    ghost var rows := [];
    for i := 0 to t.rows
      invariant rows == PassingRows(t, f, i)
      invariant ScoresRows(cand, rows, t, sims, query)
    {
      PassingRowsStep(t, f, i);
      if Passes(t, f, i) {
        ScoresRowsAppend(cand, rows, t, sims, query, i);
        rows := rows + [i];
        cand := cand + [Scored(i, RowScore(t, sims, query, i))];
      }
    }
    if |cand| == 0 {
      return Err(EmptyOverlap);
    }
    r := Ok(cand);
  }

  lemma PassingRowsStep(t: Table, f: Filters, i: nat)
    requires WellFormed(t) && i < t.rows
    ensures PassingRows(t, f, i + 1) == PassingRows(t, f, i) + (if Passes(t, f, i) then [i] else [])
  {
  }

  lemma ScoresRowsAppend(cand: seq<Scored>, rows: seq<nat>, t: Table, sims: seq<real>, query: string, i: nat)
    requires WellFormed(t) && |sims| == t.rows && i < t.rows
    requires ScoresRows(cand, rows, t, sims, query)
    ensures ScoresRows(cand + [Scored(i, RowScore(t, sims, query, i))], rows + [i], t, sims, query)
  {
    var c := cand + [Scored(i, RowScore(t, sims, query, i))];
    var r := rows + [i];
    forall j | 0 <= j < |c|
      ensures r[j] < t.rows && c[j] == Scored(r[j], RowScore(t, sims, query, r[j]))
    {
      if j < |cand| {
        assert c[j] == cand[j] && r[j] == rows[j];
      }
    }
  }

  /** `top[cols].to_dict(orient='records')` on the first `n` sorted candidates. */
  method Records(t: Table, sorted: seq<Scored>, n: nat) returns (recs: seq<Record>)
    requires WellFormed(t) && n <= |sorted|
    requires forall j :: 0 <= j < |sorted| ==> sorted[j].row < t.rows
    ensures |recs| == n
    ensures forall m :: 0 <= m < n ==> recs[m] == Record(Project(t, sorted[m].row), sorted[m].score)
  {
    recs := [];
    for j := 0 to n
      invariant |recs| == j
      invariant forall m :: 0 <= m < j ==> recs[m] == Record(Project(t, sorted[m].row), sorted[m].score)
    {
      recs := recs + [Record(Project(t, sorted[j].row), sorted[j].score)];
    }
  }

  /** The sort, the cut and the projection give a ranking. */
  lemma RankingHolds(t: Table, f: Filters, sims: seq<real>, query: string, topK: int,
                     rows: seq<nat>, cand: seq<Scored>, sorted: seq<Scored>, n: nat,
                     recs: seq<Record>, picked: seq<nat>)
    requires WellFormed(t) && |sims| == t.rows
    requires rows == PassingRows(t, f, t.rows) && ScoresRows(cand, rows, t, sims, query)
    requires sorted == SortDesc(cand) && n == TopCount(topK, |sorted|)
    requires forall j :: 0 <= j < |sorted| ==>
               sorted[j].row < t.rows && Passes(t, f, sorted[j].row) && sorted[j].score == RowScore(t, sims, query, sorted[j].row)
    requires |recs| == n && forall m :: 0 <= m < n ==> recs[m] == Record(Project(t, sorted[m].row), sorted[m].score)
    requires |picked| == n && forall j :: 0 <= j < n ==> picked[j] == sorted[j].row
    ensures Ranking(t, f, sims, query, topK, recs, picked)
  {
    SortedRowsUnique(t, f, sims, query, rows, cand, sorted);
    LeftOutScoresLower(t, f, sims, query, rows, cand, sorted, n, recs, picked);
  }

  lemma LeftOutScoresLower(t: Table, f: Filters, sims: seq<real>, query: string,
                           rows: seq<nat>, cand: seq<Scored>, sorted: seq<Scored>, n: nat,
                           recs: seq<Record>, picked: seq<nat>)
    requires WellFormed(t) && |sims| == t.rows
    requires rows == PassingRows(t, f, t.rows) && ScoresRows(cand, rows, t, sims, query)
    requires multiset(sorted) == multiset(cand) && NonIncreasing(sorted) && n <= |sorted|
    requires |recs| == n && forall m :: 0 <= m < n ==> recs[m].finalScore == sorted[m].score
    requires |picked| == n && forall j :: 0 <= j < n ==> picked[j] == sorted[j].row
    ensures NoneLeftOutScoresHigher(t, f, sims, query, recs, picked)
  {
    forall i | 0 <= i < t.rows && Passes(t, f, i) && i !in picked
      ensures forall j :: 0 <= j < n ==> sorted[j].score >= RowScore(t, sims, query, i)
    {
      CutDominates(t, f, sims, query, rows, cand, sorted, n, i);
    }
  }

  /** Every final score a recommendation returns lies in [0, 1] when the similarities do. */
  lemma RankingScoresBounded(t: Table, f: Filters, sims: seq<real>, query: string, topK: int,
                             recs: seq<Record>, picked: seq<nat>)
    requires WellFormed(t) && |sims| == t.rows
    requires forall i :: 0 <= i < |sims| ==> 0.0 <= sims[i] <= 1.0
    requires Ranking(t, f, sims, query, topK, recs, picked)
    ensures forall j :: 0 <= j < |recs| ==> 0.0 <= recs[j].finalScore <= 1.0
  {
    forall j | 0 <= j < |recs|
      ensures 0.0 <= recs[j].finalScore <= 1.0
    {
      RowScoreBounds(t, sims, query, picked[j]);
    }
  }

  /** A record carries only columns from the fixed list. */
  lemma RecordKeys(t: Table, f: Filters, sims: seq<real>, query: string, topK: int,
                   recs: seq<Record>, picked: seq<nat>, j: nat)
    requires WellFormed(t) && |sims| == t.rows
    requires Ranking(t, f, sims, query, topK, recs, picked) && j < |recs|
    ensures forall n :: n in recs[j].fields ==> n in RecordColumns
    ensures forall n :: n in RecordColumns && n in t.names ==> n in recs[j].fields
  {
  }
}
