/**
 * The nutrition-aware re-ranking of recommendations and the parsing of the
 * request fields that feed it: the filters, the tolerance, the text each
 * candidate is predicted from, the fallback prediction source, the distance
 * to the nutrition target, the stable sort and the tolerance selection.
 * The nutrition model is abstract: it maps candidate texts to predictions,
 * or to nothing when there is no model or its prediction fails.
 */
module Rerank {
  import opened Wrappers
  import opened TextUtil
  import opened Tables
  import opened Scoring
  import opened Recommender

  // ---------------------------------------------------------------------------
  // Request fields

  /** A value of the request body: a string, a number with its text, or a boolean. */
  datatype ReqValue = RStr(s: string) | RNum(x: real, text: string) | RBool(b: bool)

  /** `str(v)`. */
  function StrOf(v: ReqValue): string
  {
    match v
    case RStr(s) => s
    case RNum(_, text) => text
    case RBool(b) => if b then "True" else "False"
  }

  /** `float(v)`, or nothing where it raises. */
  function FloatOf(v: ReqValue): Option<real>
  {
    match v
    case RStr(s) => ParseDecimal(s)
    case RNum(x, _) => Some(x)
    case RBool(b) => Some(if b then 1.0 else 0.0)
  }

  /** The strings that read as "vegetarian" once lower-cased. */
  const VegWords: seq<string> := ["1", "true", "yes", "y"]

  /** `is_veg.lower() in (...)` for a string, `bool(is_veg)` otherwise. */
  function VegFlag(v: ReqValue): (r: bool)
    ensures v.RStr? ==> (r <==> Lower(v.s) in VegWords)
    ensures v.RNum? ==> (r <==> v.x != 0.0)
    ensures v.RBool? ==> r == v.b
  {
    match v
    case RStr(s) => Lower(s) in VegWords
    case RNum(x, _) => x != 0.0
    case RBool(b) => b
  }

  /** The filters the handler builds from the optional `max_time` and `is_veg` fields. */
  function RequestFilters(maxTime: Option<ReqValue>, isVeg: Option<ReqValue>): (f: Filters)
    ensures f.cuisine.None?
    ensures f.maxTime.Some? <==> maxTime.Some? && Strip(StrOf(maxTime.value)) != "" && FloatOf(maxTime.value).Some?
    ensures f.maxTime.Some? ==> f.maxTime == FloatOf(maxTime.value)
    ensures f.isVeg.Some? <==> isVeg.Some?
    ensures f.isVeg.Some? ==> f.isVeg.value == VegFlag(isVeg.value)
  {
    var t := if maxTime.Some? && Strip(StrOf(maxTime.value)) != "" then FloatOf(maxTime.value) else None;
    var v := if isVeg.Some? then Some(VegFlag(isVeg.value)) else None;
    Filters(v, t, None)
  }

  /** The handler's dictionary, filled one key at a time. */
  method ParseFilters(maxTime: Option<ReqValue>, isVeg: Option<ReqValue>) returns (f: Filters)
    ensures f == RequestFilters(maxTime, isVeg)
  {
    f := Filters(None, None, None);
    if maxTime.Some? && Strip(StrOf(maxTime.value)) != "" {
      var t := FloatOf(maxTime.value);
      if t.Some? {
        f := f.(maxTime := t);
      }
    }
    if isVeg.Some? {
      f := f.(isVeg := Some(VegFlag(isVeg.value)));
    }
  }

  /** A lower-case "y" and an upper-case "YES" both read as vegetarian; "no" does not. */
  lemma VegWordsAnyCase(s: string)
    requires s == "YES" || s == "y" || s == "no"
    ensures VegFlag(RStr(s)) <==> s != "no"
  {
    if s == "YES" {
      assert Lower(s) == "yes";
      assert VegWords[2] == "yes";
    } else if s == "y" {
      assert Lower(s) == "y";
      assert VegWords[3] == "y";
    } else {
      assert Lower(s) == "no";
    }
  }

  /** A blank `max_time` adds no time filter. */
  lemma BlankMaxTimeIgnored(s: string, isVeg: Option<ReqValue>)
    requires forall i :: 0 <= i < |s| ==> IsSpace(s[i])
    ensures RequestFilters(Some(RStr(s)), isVeg).maxTime.None?
  {
    StripEmptyIff(s);
  }

  /** `float(req.get("tolerance", 0.2))`, 0.2 where that raises. */
  function Tolerance(v: Option<ReqValue>): (r: real)
    ensures v.None? ==> r == 0.2
    ensures v.Some? && FloatOf(v.value).None? ==> r == 0.2
    ensures v.Some? && FloatOf(v.value).Some? ==> r == FloatOf(v.value).value
  {
    if v.None? then 0.2
    else match FloatOf(v.value)
      case Some(x) => x
      case None => 0.2
  }

  // ---------------------------------------------------------------------------
  // Candidate texts

  /**
   * `c.get(name, "") or ""` as a string: an absent or falsy value gives "",
   * a string gives itself, and any other truthy value (NaN included) makes
   * the following string concatenation raise, which is nothing here.
   */
  function PartText(c: Record, name: string): (r: Option<string>)
    ensures name !in c.fields ==> r == Some("")
    ensures name in c.fields && c.fields[name].Str? ==> r == Some(c.fields[name].s)
  {
    if name !in c.fields then Some("")
    else match c.fields[name]
      case Str(s) => Some(s)
      case Num(x, _) => if x == 0.0 then Some("") else None
      case Flag(b) => if b then None else Some("")
      case Missing => None
  }

  /** `ing + " " + instr + " " + title` for one candidate. */
  function CandidateText(c: Record): (r: Option<string>)
    ensures r.Some? <==> PartText(c, "ingredients").Some? && PartText(c, "instructions").Some? && PartText(c, "title").Some?
    ensures r.Some? ==> r.value == PartText(c, "ingredients").value + " " + PartText(c, "instructions").value + " "
                                   + PartText(c, "title").value
  {
    match (PartText(c, "ingredients"), PartText(c, "instructions"), PartText(c, "title"))
    case (Some(i), Some(s), Some(t)) => Some(i + " " + s + " " + t)
    case _ => None
  }

  /** All candidate texts, or nothing when one of them raises. */
  function Texts(cands: seq<Record>): (r: Option<seq<string>>)
    ensures r.Some? <==> forall k :: 0 <= k < |cands| ==> CandidateText(cands[k]).Some?
    ensures r.Some? ==> |r.value| == |cands| && forall k :: 0 <= k < |cands| ==> r.value[k] == CandidateText(cands[k]).value
  {
    if forall k :: 0 <= k < |cands| ==> CandidateText(cands[k]).Some? then
      Some(seq(|cands|, k requires 0 <= k < |cands| => CandidateText(cands[k]).value))
    else None
  }

  /** The loop that collects the texts. */
  method CandidateTexts(cands: seq<Record>) returns (texts: Option<seq<string>>)
    ensures texts == Texts(cands)
  {
    var acc: seq<string> := [];
    for k := 0 to |cands|
      invariant |acc| == k
      invariant forall m :: 0 <= m < k ==> CandidateText(cands[m]).Some? && acc[m] == CandidateText(cands[m]).value
    {
      var t := CandidateText(cands[k]);
      if t.None? {
        return None;
      }
      acc := acc + [t.value];
    }
    assert acc == seq(|cands|, k requires 0 <= k < |cands| => CandidateText(cands[k]).value);
    texts := Some(acc);
  }

  // ---------------------------------------------------------------------------
  // Predictions

  /** One row of predicted values per candidate, one column per target name. */
  datatype Predictions = Predictions(rows: seq<seq<real>>, names: seq<string>)

  /** The nutrition model: predictions for the texts, or nothing. */
  type Predictor = seq<string> -> Option<Predictions>

  /** The nutrient columns the fallback looks for in the first candidate. */
  const Possible: seq<string> := ["calories", "protein", "fat", "carbs"]

  /** `[k for k in possible if k in first]`. */
  function FallbackNames(first: Record): (r: seq<string>)
    ensures forall i :: 0 <= i < |r| ==> r[i] in Possible && r[i] in first.fields
    ensures forall n :: n in Possible && n in first.fields ==> n in r
  {
    (if Possible[0] in first.fields then [Possible[0]] else [])
      + (if Possible[1] in first.fields then [Possible[1]] else [])
      + (if Possible[2] in first.fields then [Possible[2]] else [])
      + (if Possible[3] in first.fields then [Possible[3]] else [])
  }

  /** `float(r.get(tn, 0) or 0)`, 0.0 where that raises. */
  function CellNumber(c: Record, name: string): real
  {
    if name !in c.fields then 0.0
    else match c.fields[name]
      case Num(x, _) => x
      case Flag(b) => if b then 1.0 else 0.0
      case Str(s) => (match ParseDecimal(s) case Some(x) => x case None => 0.0)
      case Missing => 0.0
  }

  /** The fallback predictions: each candidate's own values of the target names. */
  function FallbackRows(cands: seq<Record>, names: seq<string>): (r: seq<seq<real>>)
    ensures |r| == |cands| && forall k :: 0 <= k < |r| ==> |r[k]| == |names|
  {
    seq(|cands|, k requires 0 <= k < |cands| => seq(|names|, j requires 0 <= j < |names| => CellNumber(cands[k], names[j])))
  }

  /** The nested loops that build `preds_list`. */
  method FallbackPredictions(cands: seq<Record>, names: seq<string>) returns (rows: seq<seq<real>>)
    ensures rows == FallbackRows(cands, names)
  {
    rows := [];
    for k := 0 to |cands|
      invariant |rows| == k
      invariant forall m :: 0 <= m < k ==> rows[m] == FallbackRows(cands, names)[m]
    {
      var vals: seq<real> := [];
      for j := 0 to |names|
        invariant |vals| == j
        invariant forall i :: 0 <= i < j ==> vals[i] == CellNumber(cands[k], names[i])
      {
        vals := vals + [CellNumber(cands[k], names[j])];
      }
      rows := rows + [vals];
    }
  }

  /** A record from `recommend` holds only the projected columns, so the fallback finds no target names. */
  lemma FallbackFindsNothing(first: Record)
    requires forall n :: n in first.fields ==> n in RecordColumns
    ensures FallbackNames(first) == []
  {
    forall n | n in Possible
      ensures n !in RecordColumns
    {
      assert |n| <= 8;
      assert n in ["calories", "protein", "fat", "carbs"];
    }
  }

  // ---------------------------------------------------------------------------
  // Distance to the target

  function Abs(x: real): real { if x < 0.0 then -x else x }

  /** The relative error of one prediction; the absolute error when the target is 0. */
  function Term(pred: real, target: real): real
  {
    if target != 0.0 then Abs(pred - target) / target else Abs(pred - target)
  }

  /** A target name the target gives a usable number for (`tn in nutrition_target` and `float` succeeds). */
  predicate Counts(names: seq<string>, target: map<string, Option<real>>, i: nat)
    requires i < |names|
  {
    names[i] in target && target[names[i]].Some?
  }

  /** The terms of the first `n` target names, in order. */
  function Terms(names: seq<string>, target: map<string, Option<real>>, row: seq<real>, n: nat): (r: seq<real>)
    requires n <= |names| <= |row|
    ensures |r| <= n
  {
    if n == 0 then []
    else Terms(names, target, row, n - 1)
         + (if Counts(names, target, n - 1) then [Term(row[n - 1], target[names[n - 1]].value)] else [])
  }

  function Sum(s: seq<real>): real
  {
    if s == [] then 0.0 else Sum(s[..|s| - 1]) + s[|s| - 1]
  }

  lemma SumSnoc(s: seq<real>, x: real)
    ensures Sum(s + [x]) == Sum(s) + x
  {
    assert (s + [x])[..|s|] == s;
  }

  /** `compute_distance`: the mean term, or nothing (infinity) when no name counts. */
  function Distance(names: seq<string>, target: map<string, Option<real>>, row: seq<real>): Option<real>
    requires |names| <= |row|
  {
    var ts := Terms(names, target, row, |names|);
    if |ts| == 0 then None else Some(Sum(ts) / (|ts| as real))
  }

  /** The accumulating loop of `compute_distance`. */
  method ComputeDistance(names: seq<string>, target: map<string, Option<real>>, row: seq<real>) returns (d: Option<real>)
    requires |names| <= |row|
    ensures d == Distance(names, target, row)
  {
    var total := 0.0;
    var count := 0.0;
    for i := 0 to |names|
      invariant total == Sum(Terms(names, target, row, i))
      invariant count == |Terms(names, target, row, i)| as real
    {
      if names[i] in target && target[names[i]].Some? {
        var t := target[names[i]].value;
        var e := if t != 0.0 then Abs(row[i] - t) / t else Abs(row[i] - t);
        assert Terms(names, target, row, i + 1) == Terms(names, target, row, i) + [e];
        SumSnoc(Terms(names, target, row, i), e);
        total := total + e;
        count := count + 1.0;
      } else {
        assert Terms(names, target, row, i + 1) == Terms(names, target, row, i);
      }
    }
    if count == 0.0 {
      return None;
    }
    d := Some(total / count);
  }

  lemma {:induction false} TermsEmptyIff(names: seq<string>, target: map<string, Option<real>>, row: seq<real>, n: nat)
    requires n <= |names| <= |row|
    ensures Terms(names, target, row, n) == [] <==> forall i :: 0 <= i < n ==> !Counts(names, target, i)
  {
    if n > 0 {
      TermsEmptyIff(names, target, row, n - 1);
    }
  }

  /** The distance is infinite exactly when no target name counts. */
  lemma DistanceNoneIff(names: seq<string>, target: map<string, Option<real>>, row: seq<real>)
    requires |names| <= |row|
    ensures Distance(names, target, row).None? <==> forall i :: 0 <= i < |names| ==> !Counts(names, target, i)
  {
    TermsEmptyIff(names, target, row, |names|);
  }

  lemma {:induction false} SumNonNegative(s: seq<real>)
    requires forall i :: 0 <= i < |s| ==> s[i] >= 0.0
    ensures Sum(s) >= 0.0
  {
    if s != [] {
      SumNonNegative(s[..|s| - 1]);
    }
  }

  lemma {:induction false} TermsNonNegative(names: seq<string>, target: map<string, Option<real>>, row: seq<real>, n: nat)
    requires n <= |names| <= |row|
    requires forall k :: k in target && target[k].Some? ==> target[k].value >= 0.0
    ensures forall i :: 0 <= i < |Terms(names, target, row, n)| ==> Terms(names, target, row, n)[i] >= 0.0
  {
    if n > 0 {
      TermsNonNegative(names, target, row, n - 1);
      if Counts(names, target, n - 1) {
        var t := target[names[n - 1]].value;
        assert Term(row[n - 1], t) >= 0.0;
      }
    }
  }

  /** With no negative target value, the distance is never negative. */
  lemma DistanceNonNegative(names: seq<string>, target: map<string, Option<real>>, row: seq<real>)
    requires |names| <= |row|
    requires forall k :: k in target && target[k].Some? ==> target[k].value >= 0.0
    ensures Distance(names, target, row).Some? ==> Distance(names, target, row).value >= 0.0
  {
    var ts := Terms(names, target, row, |names|);
    TermsNonNegative(names, target, row, |names|);
    SumNonNegative(ts);
    if |ts| > 0 {
      assert Sum(ts) / (|ts| as real) >= 0.0;
    }
  }

  /** A negative target makes the distance negative: a target of -2 against a prediction of 0. */
  lemma NegativeTargetDistance(names: seq<string>, target: map<string, Option<real>>)
    requires names == ["calories"] && target == map["calories" := Some(-2.0)]
    ensures Distance(names, target, [0.0]) == Some(-1.0)
  {
    assert Counts(names, target, 0);
    assert Terms(names, target, [0.0], 1) == [-1.0];
    assert Sum([-1.0]) == -1.0 by {
      assert [-1.0][..0] == [];
    }
  }

  // ---------------------------------------------------------------------------
  // Scoring the candidates

  /** A candidate with its predicted nutrients and its distance (nothing for infinity). */
  datatype Ranked = Ranked(rec: Record, pred: map<string, real>, distance: Option<real>)

  /** `{tn: pred[i] for i, tn in enumerate(target_names)}` over the first `n` names; a repeated name keeps its last value. */
  function PredMap(names: seq<string>, row: seq<real>, n: nat): (r: map<string, real>)
    requires n <= |names| <= |row|
    ensures forall k :: k in r <==> k in names[..n]
  {
    if n == 0 then map[]
    else
      assert names[..n] == names[..n - 1] + [names[n - 1]];
      PredMap(names, row, n - 1)[names[n - 1] := row[n - 1]]
  }

  /** Every candidate with its predictions and distance, in candidate order. */
  function ScoreAll(cands: seq<Record>, rows: seq<seq<real>>, names: seq<string>, target: map<string, Option<real>>): (r: seq<Ranked>)
    requires |cands| == |rows| && forall k :: 0 <= k < |rows| ==> |names| <= |rows[k]|
    ensures |r| == |cands|
  {
    seq(|cands|, k requires 0 <= k < |cands| =>
      Ranked(cands[k], PredMap(names, rows[k], |names|), Distance(names, target, rows[k])))
  }

  /** The loop that builds `scored`. */
  method ScoreCandidates(cands: seq<Record>, rows: seq<seq<real>>, names: seq<string>, target: map<string, Option<real>>)
    returns (scored: seq<Ranked>)
    requires |cands| == |rows| && forall k :: 0 <= k < |rows| ==> |names| <= |rows[k]|
    ensures scored == ScoreAll(cands, rows, names, target)
  {
    scored := [];
    for k := 0 to |cands|
      invariant |scored| == k
      invariant forall m :: 0 <= m < k ==> scored[m] == ScoreAll(cands, rows, names, target)[m]
    {
      var d := ComputeDistance(names, target, rows[k]);
      scored := scored + [Ranked(cands[k], PredMap(names, rows[k], |names|), d)];
    }
  }

  // ---------------------------------------------------------------------------
  // The stable sort

  /** `(distance is None, distance or 1e9)`: a distance of exactly 0 is keyed like a missing one's value. */
  datatype SortKey = SortKey(missing: bool, value: real)

  function KeyOf(r: Ranked): SortKey
  {
    SortKey(r.distance.None?, if r.distance.None? || r.distance.value == 0.0 then 1e9 else r.distance.value)
  }

  /** Tuple order: False before True, then the value. */
  predicate KeyLe(a: SortKey, b: SortKey)
  {
    (!a.missing && b.missing) || (a.missing == b.missing && a.value <= b.value)
  }

  ghost predicate SortedByKey(s: seq<Ranked>)
  {
    forall i, j :: 0 <= i < j < |s| ==> KeyLe(KeyOf(s[i]), KeyOf(s[j]))
  }

  /** Inserts `x` before the first element whose key is not smaller, so among equal keys `x` comes first. */
  function InsertByKey(x: Ranked, s: seq<Ranked>): (r: seq<Ranked>)
    ensures multiset(r) == multiset(s) + multiset{x}
    ensures |r| == |s| + 1
  {
    if s == [] then [x]
    else if KeyLe(KeyOf(x), KeyOf(s[0])) then [x] + s
    else
      assert s == [s[0]] + s[1..];
      [s[0]] + InsertByKey(x, s[1..])
  }

  lemma {:induction false} InsertByKeySorted(x: Ranked, s: seq<Ranked>)
    requires SortedByKey(s)
    ensures SortedByKey(InsertByKey(x, s))
  {
    if s != [] && !KeyLe(KeyOf(x), KeyOf(s[0])) {
      InsertByKeySorted(x, s[1..]);
      var t := InsertByKey(x, s[1..]);
      forall k | 0 <= k < |t|
        ensures KeyLe(KeyOf(s[0]), KeyOf(t[k]))
      {
        assert t[k] in multiset(s[1..]) + multiset{x};
        if t[k] != x {
          assert t[k] in s[1..];
        }
      }
    }
  }

  /** `sorted(scored, key=...)`: Python's sort is stable. */
  function SortByKey(s: seq<Ranked>): (r: seq<Ranked>)
    ensures multiset(r) == multiset(s)
    ensures |r| == |s|
    ensures SortedByKey(r)
  {
    if s == [] then []
    else
      assert s == [s[0]] + s[1..];
      InsertByKeySorted(s[0], SortByKey(s[1..]));
      InsertByKey(s[0], SortByKey(s[1..]))
  }

  /** The elements with key `k`, in order. */
  function WithKey(s: seq<Ranked>, k: SortKey): seq<Ranked>
  {
    if s == [] then [] else (if KeyOf(s[0]) == k then [s[0]] else []) + WithKey(s[1..], k)
  }

  lemma {:induction false} InsertByKeyStable(x: Ranked, s: seq<Ranked>, k: SortKey)
    ensures WithKey(InsertByKey(x, s), k) == (if KeyOf(x) == k then [x] else []) + WithKey(s, k)
  {
    if s == [] {
      assert WithKey([x], k) == (if KeyOf(x) == k then [x] else []) + WithKey([], k);
    } else if KeyLe(KeyOf(x), KeyOf(s[0])) {
      assert ([x] + s)[1..] == s;
    } else {
      var r := InsertByKey(x, s[1..]);
      assert ([s[0]] + r)[0] == s[0] && ([s[0]] + r)[1..] == r;
      InsertByKeyStable(x, s[1..], k);
      assert KeyOf(x) != KeyOf(s[0]);
    }
  }

  /** Ties keep their order: the elements of each key appear in the sorted sequence as in the input. */
  lemma {:induction false} SortStable(s: seq<Ranked>, k: SortKey)
    ensures WithKey(SortByKey(s), k) == WithKey(s, k)
  {
    if s != [] {
      SortStable(s[1..], k);
      InsertByKeyStable(s[0], SortByKey(s[1..]), k);
    }
  }

  lemma {:induction false} WithKeyAll(s: seq<Ranked>, k: SortKey)
    requires forall i :: 0 <= i < |s| ==> KeyOf(s[i]) == k
    ensures WithKey(s, k) == s
  {
    if s != [] {
      WithKeyAll(s[1..], k);
      assert s == [s[0]] + s[1..];
    }
  }

  /** When every key is the same, sorting changes nothing. */
  lemma SameKeysKeepOrder(s: seq<Ranked>, k: SortKey)
    requires forall i :: 0 <= i < |s| ==> KeyOf(s[i]) == k
    ensures SortByKey(s) == s
  {
    var r := SortByKey(s);
    forall i | 0 <= i < |r|
      ensures KeyOf(r[i]) == k
    {
      assert r[i] in multiset(s);
    }
    WithKeyAll(s, k);
    WithKeyAll(r, k);
    SortStable(s, k);
  }

  /** Finite distances first, ascending; a distance of exactly 0 sorts as if it were 1e9. */
  lemma SortedOrder(s: seq<Ranked>, i: nat, j: nat)
    requires i < j < |SortByKey(s)|
    ensures var r := SortByKey(s);
            && (r[j].distance.Some? ==> r[i].distance.Some?)
            && (r[i].distance.Some? && r[j].distance.Some? && r[i].distance.value != 0.0 && r[j].distance.value != 0.0
                ==> r[i].distance.value <= r[j].distance.value)
            && (r[i].distance == Some(0.0) && r[j].distance.Some? && r[j].distance.value != 0.0 ==> r[j].distance.value >= 1e9)
  {
  }

  // ---------------------------------------------------------------------------
  // Selection

  predicate InTolerance(r: Ranked, tolerance: real)
  {
    r.distance.Some? && r.distance.value <= tolerance
  }

  /** `[r for r in scored_sorted if ...within tolerance]`. */
  function Within(s: seq<Ranked>, tolerance: real): (r: seq<Ranked>)
    ensures forall x :: x in r <==> x in s && InTolerance(x, tolerance)
    ensures |r| <= |s|
    ensures SortedByKey(s) ==> SortedByKey(r)
  {
    if s == [] then []
    else
      assert s == [s[0]] + s[1..];
      var rest := Within(s[1..], tolerance);
      assert SortedByKey(s) ==> SortedByKey(s[1..]) && forall x :: x in rest ==> KeyLe(KeyOf(s[0]), KeyOf(x));
      (if InTolerance(s[0], tolerance) then [s[0]] else []) + rest
  }

  /** The first `n` elements, or all when there are fewer. */
  function Take<T>(s: seq<T>, n: nat): (r: seq<T>)
    ensures |r| == if |s| < n then |s| else n
    ensures r <= s
  {
    if |s| < n then s else s[..n]
  }

  /** The final selection: the candidates within tolerance when a target was given and some are, else the first 12. */
  function Select(sorted: seq<Ranked>, hasTarget: bool, tolerance: real): (r: seq<Ranked>)
    ensures hasTarget && Within(sorted, tolerance) != [] ==> r == Within(sorted, tolerance)
    ensures !(hasTarget && Within(sorted, tolerance) != []) ==> r == Take(sorted, 12)
    ensures SortedByKey(sorted) ==> SortedByKey(r)
  {
    var filtered := Within(sorted, tolerance);
    if hasTarget && filtered != [] then filtered else Take(sorted, 12)
  }

  /** With a target and at least one candidate within tolerance, exactly those are returned, however many. */
  lemma SelectWithinTolerance(sorted: seq<Ranked>, tolerance: real, x: Ranked)
    requires x in sorted && InTolerance(x, tolerance)
    ensures var r := Select(sorted, true, tolerance);
            && x in r
            && forall y :: y in r <==> y in sorted && InTolerance(y, tolerance)
  {
  }

  // ---------------------------------------------------------------------------
  // The whole re-ranking

  /** The candidates with no prediction: the first 12, each with empty predictions and no distance. */
  function Plain(cands: seq<Record>): (r: seq<Ranked>)
    ensures |r| == if |cands| < 12 then |cands| else 12
    ensures forall k :: 0 <= k < |r| ==> r[k] == Ranked(cands[k], map[], None)
  {
    var firsts := Take(cands, 12);
    seq(|firsts|, k requires 0 <= k < |firsts| => Ranked(firsts[k], map[], None))
  }

  /** Where the predictions come from: the model, else the candidates' own nutrient columns. */
  function PredictionSource(cands: seq<Record>, texts: seq<string>, predict: Predictor): (p: Predictions)
    requires cands != []
    ensures predict(texts).Some? ==> p == predict(texts).value
    ensures predict(texts).None? ==> p.names == FallbackNames(cands[0]) && p.rows == FallbackRows(cands, p.names)
    ensures predict(texts).None? ==> |p.rows| == |cands| && forall k :: 0 <= k < |p.rows| ==> |p.rows[k]| == |p.names|
  {
    match predict(texts)
    case Some(p) => p
    case None =>
      var names := FallbackNames(cands[0]);
      Predictions(FallbackRows(cands, names), names)
  }

  function Min(a: nat, b: nat): nat { if a < b then a else b }

  /**
   * What `recommend_with_nutrition` returns for the candidates of
   * `recommend`: nothing where it raises (a non-string text part, or a
   * prediction row shorter than the target names).
   */
  ghost function Reranked(cands: seq<Record>, predict: Predictor, target: map<string, Option<real>>, tolerance: real)
    : Option<seq<Ranked>>
  {
    if cands == [] then Some([])
    else match Texts(cands)
      case None => None
      case Some(texts) =>
        var p := PredictionSource(cands, texts, predict);
        if p.names == [] then Some(Plain(cands))
        else
          var m := Min(|cands|, |p.rows|);
          if exists k :: 0 <= k < m && |p.rows[k]| < |p.names| then None
          else Some(Select(SortByKey(ScoreAll(cands[..m], p.rows[..m], p.names, target)), |target| > 0, tolerance))
  }

  /** The model's predictions, or the fallback built from the candidates. */
  method Predict(cands: seq<Record>, texts: seq<string>, predict: Predictor) returns (p: Predictions)
    requires cands != []
    ensures p == PredictionSource(cands, texts, predict)
  {
    var preds := predict(texts);
    if preds.Some? {
      p := preds.value;
    } else {
      var names := FallbackNames(cands[0]);
      var rows := FallbackPredictions(cands, names);
      p := Predictions(rows, names);
    }
  }

  /** Whether each of the first `m` rows has a value per target name (an `IndexError` otherwise). */
  method RowsLongEnough(rows: seq<seq<real>>, names: seq<string>, m: nat) returns (ok: bool)
    requires m <= |rows|
    ensures ok <==> forall k :: 0 <= k < m ==> |rows[k]| >= |names|
  {
    var k := 0;
    while k < m
      invariant k <= m
      invariant forall j :: 0 <= j < k ==> |rows[j]| >= |names|
    {
      if |rows[k]| < |names| {
        return false;
      }
      k := k + 1;
    }
    return true;
  }

  /** The handler from the candidates on. */
  method RecommendWithNutrition(cands: seq<Record>, predict: Predictor, target: map<string, Option<real>>, tolerance: real)
    returns (r: Option<seq<Ranked>>)
    ensures r == Reranked(cands, predict, target, tolerance)
  {
    if cands == [] {
      return Some([]);
    }
    var texts := CandidateTexts(cands);
    if texts.None? {
      return None;
    }
    var p := Predict(cands, texts.value, predict);
    if p.names == [] {
      return Some(Plain(cands));
    }
    var m := Min(|cands|, |p.rows|);
    var ok := RowsLongEnough(p.rows, p.names, m);
    if !ok {
      return None;
    }
    var rows, names := p.rows, p.names;
    var scored := ScoreCandidates(cands[..m], rows[..m], names, target);
    r := Some(Select(SortByKey(scored), |target| > 0, tolerance));
  }

  /**
   * Without a nutrition model the candidates of `recommend` carry no nutrient
   * column, so the first 12 come back unscored.
   */
  lemma NoModelMeansPlain(cands: seq<Record>, predict: Predictor, target: map<string, Option<real>>, tolerance: real)
    requires cands != [] && Texts(cands).Some? && predict(Texts(cands).value).None?
    requires forall n :: n in cands[0].fields ==> n in RecordColumns
    ensures Reranked(cands, predict, target, tolerance) == Some(Plain(cands))
  {
    FallbackFindsNothing(cands[0]);
  }

  /** Without a target every distance is infinite, so the first 12 candidates come back in their original order. */
  lemma EmptyTargetKeepsOrder(cands: seq<Record>, rows: seq<seq<real>>, names: seq<string>, tolerance: real)
    requires |cands| == |rows| && forall k :: 0 <= k < |rows| ==> |names| <= |rows[k]|
    ensures var scored := ScoreAll(cands, rows, names, map[]);
            Select(SortByKey(scored), false, tolerance) == Take(scored, 12)
  {
    var scored := ScoreAll(cands, rows, names, map[]);
    forall i | 0 <= i < |scored|
      ensures KeyOf(scored[i]) == SortKey(true, 1e9)
    {
      DistanceNoneIff(names, map[], rows[i]);
    }
    SameKeysKeepOrder(scored, SortKey(true, 1e9));
  }
}
