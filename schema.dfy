/**
 * What the recommender makes of a loaded table's columns: the renaming of
 * common column names to canonical ones, and the search for the column that
 * holds the ingredient lists.
 */
module Schema {
  import opened Wrappers
  import opened TextUtil
  import opened Tables

  // ---------------------------------------------------------------------------
  // Canonical column names

  /**
   * One renaming rule: a column whose lower-cased name contains one of `keys`
   * (and not `avoid`) is renamed to `target`, unless the table already has a
   * column called `target`.
   */
  datatype Rule = Rule(keys: seq<string>, target: string, avoid: Option<string>)

  /** The rules in the order they are tried; a later rule overwrites an earlier one. */
  const Rules: seq<Rule> := [
    Rule(["ingredient"], "ingredients", None),
    Rule(["title", "recipe name", "name"], "title", Some("author")),
    Rule(["instruction"], "instructions", None),
    Rule(["time"], "prep_time", None),
    Rule(["image"], "image_url", None),
    Rule(["cuisine"], "cuisine", None),
    Rule(["veg", "vegetarian"], "is_veg", None)
  ]

  predicate Fires(r: Rule, lc: string, names: seq<string>)
  {
    && (exists k :: 0 <= k < |r.keys| && Contains(lc, r.keys[k]))
    && r.target !in names
    && (r.avoid.None? || !Contains(lc, r.avoid.value))
  }

  /** The last of the first `n` rules that fires on the lower-cased name `lc`. */
  function LastFiring(lc: string, names: seq<string>, n: nat): (r: Option<nat>)
    requires n <= |Rules|
    ensures r.Some? ==> r.value < n && Fires(Rules[r.value], lc, names)
    ensures r.Some? ==> forall j :: r.value < j < n ==> !Fires(Rules[j], lc, names)
    ensures r.None? ==> forall j :: 0 <= j < n ==> !Fires(Rules[j], lc, names)
  {
    if n == 0 then None
    else if Fires(Rules[n - 1], lc, names) then Some(n - 1)
    else LastFiring(lc, names, n - 1)
  }

  /** The canonical name column `c` is renamed to in a table with columns `names`, if any. */
  function RuleFor(c: string, names: seq<string>): Option<string>
  {
    match LastFiring(Lower(c), names, |Rules|)
    case Some(i) => Some(Rules[i].target)
    case None => None
  }

  /** The rename map as a whole: every column some rule fires on, with its canonical name. */
  ghost function ColumnMap(names: seq<string>): map<string, string>
  {
    map c | c in names && RuleFor(c, names).Some? :: RuleFor(c, names).value
  }

  /** The body of the loop for one column `c`: every rule in turn, a firing rule overwriting what an earlier one wrote. */
  method ApplyRules(c: string, names: seq<string>, colmap: map<string, string>) returns (r: map<string, string>)
    ensures r == if RuleFor(c, names).Some? then colmap[c := RuleFor(c, names).value] else colmap
  {
    var lc := Lower(c);
    r := colmap;
    for ri := 0 to |Rules|
      invariant r == match LastFiring(lc, names, ri) case Some(i) => colmap[c := Rules[i].target] case None => colmap
    {
      if Fires(Rules[ri], lc, names) {
        r := r[c := Rules[ri].target];
      }
    }
  }

  /** The loop that builds `colmap`, one column after the other. */
  method BuildColumnMap(names: seq<string>) returns (colmap: map<string, string>)
    ensures colmap == ColumnMap(names)
  {
    colmap := map[];
    for ci := 0 to |names|
      invariant colmap == PrefixMap(names, ci)
    {
      colmap := ApplyRules(names[ci], names, colmap);
      PrefixMapStep(names, ci);
    }
    assert names[..|names|] == names;
  }

  /** The rename map of the first `n` columns. */
  ghost function PrefixMap(names: seq<string>, n: nat): map<string, string>
    requires n <= |names|
  {
    map c | c in names[..n] && RuleFor(c, names).Some? :: RuleFor(c, names).value
  }

  lemma PrefixMapStep(names: seq<string>, n: nat)
    requires n < |names|
    ensures PrefixMap(names, n + 1) == var c := names[n];
              if RuleFor(c, names).Some? then PrefixMap(names, n)[c := RuleFor(c, names).value] else PrefixMap(names, n)
  {
    assert names[..n + 1] == names[..n] + [names[n]];
  }

  /** `df.rename(columns=colmap)`: each name in the map replaced by its image. */
  function Renamed(names: seq<string>, colmap: map<string, string>): (r: seq<string>)
    ensures |r| == |names|
    ensures forall i :: 0 <= i < |names| ==> r[i] == if names[i] in colmap then colmap[names[i]] else names[i]
  {
    seq(|names|, i requires 0 <= i < |names| => if names[i] in colmap then colmap[names[i]] else names[i])
  }

  /** No column is renamed to a canonical name the table already has. */
  lemma NeverOntoExisting(names: seq<string>)
    ensures forall c :: c in ColumnMap(names) ==> ColumnMap(names)[c] !in names
  {
  }

  /** A column whose name mentions "author" is never renamed to "title". */
  lemma AuthorNeverTitle(c: string, names: seq<string>)
    requires Contains(Lower(c), "author")
    ensures RuleFor(c, names) != Some("title")
  {
    var r := LastFiring(Lower(c), names, |Rules|);
    if r.Some? {
      var i := r.value;
      assert Fires(Rules[i], Lower(c), names);
      if i != 1 {
        assert |Rules[i].target| != 5;
      }
    }
  }

  /**
   * The rules are tried in order and a later one overwrites an earlier one:
   * the canonical name is the target of the LAST firing rule.
   */
  lemma {:induction false} LastRuleWins(c: string, names: seq<string>, i: nat)
    requires i < |Rules| && Fires(Rules[i], Lower(c), names)
    requires forall j :: i < j < |Rules| ==> !Fires(Rules[j], Lower(c), names)
    ensures RuleFor(c, names) == Some(Rules[i].target)
  {
    var r := LastFiring(Lower(c), names, |Rules|);
    assert r.Some?;
    assert r.value == i;
  }

  /** For instance a column that mentions "veg" becomes "is_veg" even when it also mentions "time" or "name". */
  lemma VegWins(c: string, names: seq<string>)
    requires Contains(Lower(c), "veg") && "is_veg" !in names
    ensures RuleFor(c, names) == Some("is_veg")
  {
    assert Rules[6].keys[0] == "veg";
    assert Fires(Rules[6], Lower(c), names);
    LastRuleWins(c, names, 6);
  }

  // ---------------------------------------------------------------------------
  // The ingredient column

  predicate NamesIngredient(name: string) { Contains(Lower(name), "ingredient") }

  /** The first `n` cells rendered as strings, missing cells skipped (`dropna().astype(str).head(n)`). */
  function Sample(col: seq<Cell>, n: nat): (r: seq<string>)
    ensures |r| <= n
  {
    if col == [] || n == 0 then []
    else if col[0].Missing? then Sample(col[1..], n)
    else [Render(col[0])] + Sample(col[1..], n - 1)
  }

  /** How many of the strings contain a comma. */
  function CommaCount(sample: seq<string>): (r: nat)
    ensures r <= |sample|
  {
    if sample == [] then 0 else (if ',' in sample[0] then 1 else 0) + CommaCount(sample[1..])
  }

  /** More than a fifth of the first 200 present values contain a comma. */
  predicate CommaHeavy(col: seq<Cell>)
  {
    var sample := Sample(col, 200);
    |sample| > 0 && (CommaCount(sample) as real) / (|sample| as real) > 0.2
  }

  /** The first column whose lower-cased name contains "ingredient". */
  method FirstIngredientNamed(names: seq<string>) returns (k: Option<nat>)
    ensures k.Some? ==> k.value < |names| && NamesIngredient(names[k.value])
    ensures k.Some? ==> forall j :: 0 <= j < k.value ==> !NamesIngredient(names[j])
    ensures k.None? ==> forall j :: 0 <= j < |names| ==> !NamesIngredient(names[j])
  {
    k := None;
    var i := 0;
    while i < |names|
      invariant 0 <= i <= |names|
      invariant forall j :: 0 <= j < i ==> !NamesIngredient(names[j])
    {
      if NamesIngredient(names[i]) {
        k := Some(i);
        break;
      }
      i := i + 1;
    }
  }

  /** The first column with enough commas in its sample. */
  method FirstCommaHeavy(t: Table) returns (k: Option<nat>)
    requires WellFormed(t)
    ensures k.Some? ==> k.value < |t.names| && CommaHeavy(t.cols[k.value])
    ensures k.Some? ==> forall j :: 0 <= j < k.value ==> !CommaHeavy(t.cols[j])
    ensures k.None? ==> forall j :: 0 <= j < |t.names| ==> !CommaHeavy(t.cols[j])
  {
    k := None;
    var i := 0;
    while i < |t.names|
      invariant 0 <= i <= |t.names|
      invariant forall j :: 0 <= j < i ==> !CommaHeavy(t.cols[j])
    {
      var sample := Sample(t.cols[i], 200);
      if |sample| != 0 {
        var rate := (CommaCount(sample) as real) / (|sample| as real);
        if rate > 0.2 {
          k := Some(i);
          break;
        }
      }
      i := i + 1;
    }
  }

  /** The column `fit` takes the ingredient lists from, as a specification. */
  ghost predicate IsIngredientColumn(t: Table, k: nat)
    requires WellFormed(t)
  {
    && k < |t.names|
    && if exists j :: 0 <= j < |t.names| && NamesIngredient(t.names[j]) then
         NamesIngredient(t.names[k]) && forall j :: 0 <= j < k ==> !NamesIngredient(t.names[j])
       else
         CommaHeavy(t.cols[k]) && t.names[k] != "" && forall j :: 0 <= j < k ==> !CommaHeavy(t.cols[j])
  }

  /**
   * Column detection: by name first, then by comma density; a chosen column
   * whose name is the empty string counts as none (`if not ing_col`).
   */
  method IngredientColumn(t: Table) returns (k: Option<nat>)
    requires WellFormed(t)
    ensures k.Some? ==> IsIngredientColumn(t, k.value)
    ensures k.None? ==> forall j :: 0 <= j < |t.names| ==> !IsIngredientColumn(t, j)
  {
    k := FirstIngredientNamed(t.names);
    if k.None? {
      k := FirstCommaHeavy(t);
      if k.Some? && t.names[k.value] == "" {
        k := None;
      }
    }
  }

  /** At most one column is the ingredient column. */
  lemma IngredientColumnUnique(t: Table, k: nat)
    requires WellFormed(t) && IsIngredientColumn(t, k)
    ensures forall j :: 0 <= j < |t.names| && IsIngredientColumn(t, j) ==> j == k
  {
    forall j | 0 <= j < |t.names| && IsIngredientColumn(t, j)
      ensures j == k
    {
    }
  }
}
