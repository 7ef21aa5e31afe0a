/**
 * What `fit` does to the table before the vectoriser sees it: the ingredient
 * column as strings, its cleaned form, the optional text columns with their
 * fallbacks, and the combined `search_text`.
 */
module Fitting {
  import opened Wrappers
  import opened TextUtil
  import opened Preprocessing
  import opened Tables
  import opened Schema

  /** The table `load_data` leaves in `self.df`: the CSV with its columns renamed. */
  ghost function Loaded(t: Table): (r: Table)
    requires WellFormed(t)
    ensures WellFormed(r) && r.rows == t.rows && r.cols == t.cols
  {
    Table(Renamed(t.names, ColumnMap(t.names)), t.cols, t.rows)
  }

  /** A column of empty strings (`df[name] = ''`). */
  function Blank(n: nat): (r: seq<Cell>)
    ensures |r| == n && forall i :: 0 <= i < n ==> r[i] == Str("")
  {
    seq(n, _ => Str(""))
  }

  /** `clean_ingredient_text` of one stringified cell. */
  ghost function CleanCell(c: Cell, parse: LiteralParser): Cell
  {
    Str(CleanIngredients(Text(Render(c)), parse))
  }

  /** `df[ing_col].apply(clean_ingredient_text)` on the stringified column. */
  ghost function CleanColumn(cells: seq<Cell>, parse: LiteralParser): (r: seq<Cell>)
    ensures |r| == |cells|
  {
    if cells == [] then [] else CleanColumn(cells[..|cells| - 1], parse) + [CleanCell(cells[|cells| - 1], parse)]
  }

  /** Each cell of the cleaned column is the cleaned text of the cell beside it. */
  lemma {:induction false} CleanColumnAt(cells: seq<Cell>, parse: LiteralParser, i: nat)
    requires i < |cells|
    ensures CleanColumn(cells, parse)[i] == CleanCell(cells[i], parse)
  {
    if i < |cells| - 1 {
      CleanColumnAt(cells[..|cells| - 1], parse, i);
    }
  }

  /** `df[ing] = df[ing].astype(str)` followed by `df['ingredients_clean'] = df[ing].apply(clean_ingredient_text)`. */
  ghost function Cleaned(t: Table, ing: string, parse: LiteralParser): (r: Table)
    requires WellFormed(t)
    ensures WellFormed(r) && r.rows == t.rows
  {
    var t1 := SetColumn(t, ing, AsStrings(Column(t, ing)));
    SetColumn(t1, "ingredients_clean", CleanColumn(Column(t1, ing), parse))
  }

  /** `name` as strings when the table has it, else `alt` as strings when it has that, else empty strings. */
  function TextColumn(t: Table, name: string, alt: Option<string>): (r: seq<Cell>)
    requires WellFormed(t)
    ensures |r| == t.rows
  {
    if name in t.names then AsStrings(Column(t, name))
    else if alt.Some? && alt.value in t.names then AsStrings(Column(t, alt.value))
    else Blank(t.rows)
  }

  /** An optional text column made to exist as strings, with its fallback. */
  function FillText(t: Table, name: string, alt: Option<string>): (r: Table)
    requires WellFormed(t)
    ensures WellFormed(r) && r.rows == t.rows
    ensures name in r.names && Column(r, name) == TextColumn(t, name, alt)
    ensures forall n :: n in r.names <==> n in t.names || n == name
    ensures forall n :: n in t.names && n != name ==> Column(r, n) == Column(t, n)
  {
    SetColumn(t, name, TextColumn(t, name, alt))
  }

  /** `ingredients_clean + ' ' + instructions + ' ' + cuisine + ' ' + title`, row by row. */
  function SearchColumn(t: Table): (r: seq<Cell>)
    requires WellFormed(t)
    ensures |r| == t.rows
  {
    SearchRows(t, t.rows)
  }

  /** The search texts of the first `n` rows. */
  function SearchRows(t: Table, n: nat): (r: seq<Cell>)
    requires WellFormed(t) && n <= t.rows
    ensures |r| == n
    ensures forall i :: 0 <= i < n ==> r[i] == Str(SearchText(t, i))
  {
    if n == 0 then [] else SearchRows(t, n - 1) + [Str(SearchText(t, n - 1))]
  }

  /** Row `i` of the search column is that row's search text. */
  lemma {:induction false} SearchRowsAt(t: Table, n: nat, i: nat)
    requires WellFormed(t) && i < n <= t.rows
    ensures SearchRows(t, n)[i] == Str(SearchText(t, i))
  {
    if i < n - 1 {
      SearchRowsAt(t, n - 1, i);
    }
  }

  function SearchText(t: Table, i: nat): string
    requires WellFormed(t) && i < t.rows
  {
    Render(Column(t, "ingredients_clean")[i]) + " " + Render(Column(t, "instructions")[i]) + " "
    + Render(Column(t, "cuisine")[i]) + " " + Render(Column(t, "title")[i])
  }

  /** The three optional text columns, in the order `fit` fills them. */
  function Filled(t: Table): (r: Table)
    requires WellFormed(t)
    ensures WellFormed(r) && r.rows == t.rows
  {
    FillText(FillText(FillText(t, "cuisine", None), "title", Some("name")), "instructions", Some("steps"))
  }

  /** The table `fit` builds from `t` once `ing` is chosen as the ingredient column. */
  ghost function Prepared(t: Table, ing: string, parse: LiteralParser): (r: Table)
    requires WellFormed(t)
    ensures WellFormed(r) && r.rows == t.rows
  {
    var t5 := Filled(Cleaned(t, ing, parse));
    SetColumn(t5, "search_text", SearchColumn(t5))
  }

  /** `df['search_text'].values.astype('U')`: the documents the vectoriser is fitted on. */
  function Documents(t: Table): (r: seq<string>)
    requires WellFormed(t)
    ensures |r| == t.rows
  {
    seq(t.rows, i requires 0 <= i < t.rows => Render(Column(t, "search_text")[i]))
  }

  /** `apply(clean_ingredient_text)` over the stringified column, as a loop over its cells. */
  method CleanCells(src: seq<Cell>, parse: LiteralParser) returns (cleaned: seq<Cell>)
    ensures cleaned == CleanColumn(src, parse)
  {
    cleaned := [];
    for i := 0 to |src|
      invariant cleaned == CleanColumn(src[..i], parse)
    {
      var s := CleanIngredientText(Text(Render(src[i])), parse);
      assert src[..i + 1][..i] == src[..i];
      cleaned := cleaned + [Str(s)];
    }
    assert src[..|src|] == src;
  }

  /** The first two column assignments of `fit`. */
  method CleanStep(t: Table, ing: string, parse: LiteralParser) returns (d: Table)
    requires WellFormed(t)
    ensures d == Cleaned(t, ing, parse)
  {
    d := SetColumn(t, ing, AsStrings(Column(t, ing)));
    var cleaned := CleanCells(Column(d, ing), parse);
    d := SetColumn(d, "ingredients_clean", cleaned);
  }

  /** One optional column: converted when present, else copied from its fallback, else empty. */
  method FillStep(t: Table, name: string, alt: Option<string>) returns (d: Table)
    requires WellFormed(t)
    ensures d == FillText(t, name, alt)
  {
    if name in t.names {
      d := SetColumn(t, name, AsStrings(Column(t, name)));
    } else if alt.Some? && alt.value in t.names {
      d := SetColumn(t, name, AsStrings(Column(t, alt.value)));
    } else {
      d := SetColumn(t, name, Blank(t.rows));
    }
  }

  /** The rows of `search_text`, built one after the other. */
  method SearchCells(t: Table) returns (texts: seq<Cell>)
    requires WellFormed(t)
    ensures texts == SearchColumn(t)
  {
    texts := [];
    for i := 0 to t.rows
      invariant texts == SearchRows(t, i)
    {
      texts := texts + [Str(SearchText(t, i))];
    }
  }

  /** `df['search_text'] = ...`. */
  method SearchStep(t: Table) returns (d: Table)
    requires WellFormed(t)
    ensures d == SetColumn(t, "search_text", SearchColumn(t))
  {
    var texts := SearchCells(t);
    d := SetColumn(t, "search_text", texts);
  }

  /** The column work of `fit` on its copy of the table, step by step. */
  method PrepareTable(t: Table, ing: string, parse: LiteralParser) returns (d: Table)
    requires WellFormed(t)
    ensures d == Prepared(t, ing, parse)
  {
    d := CleanStep(t, ing, parse);
    d := FillStep(d, "cuisine", None);
    d := FillStep(d, "title", Some("name"));
    d := FillStep(d, "instructions", Some("steps"));
    d := SearchStep(d);
  }

  /** The prepared table has the cleaned column, the three text columns and the search text. */
  lemma PreparedHasColumns(t: Table, ing: string, parse: LiteralParser)
    requires WellFormed(t)
    ensures var d := Prepared(t, ing, parse);
            && "ingredients_clean" in d.names && "cuisine" in d.names && "title" in d.names
            && "instructions" in d.names && "search_text" in d.names
            && (forall n :: n in t.names ==> n in d.names)
  {
  }

  // ---------------------------------------------------------------------------
  // What the prepared table holds

  /** The text a column contributes for row `i`: its string form, the fallback column's, or nothing. */
  ghost function FieldText(t: Table, name: string, alt: Option<string>, i: nat): string
    requires WellFormed(t) && i < t.rows
  {
    if name in t.names then Render(Column(t, name)[i])
    else if alt.Some? && alt.value in t.names then Render(Column(t, alt.value)[i])
    else ""
  }

  /** Filling column `name` leaves every other column, and whether it exists, as it was; `name` reads as its field text. */
  lemma FillTextReads(t: Table, name: string, alt: Option<string>, other: string, i: nat)
    requires WellFormed(t) && i < t.rows
    ensures other != name ==> (other in FillText(t, name, alt).names <==> other in t.names)
    ensures other != name && other in t.names ==> Column(FillText(t, name, alt), other) == Column(t, other)
    ensures Render(Column(FillText(t, name, alt), name)[i]) == FieldText(t, name, alt, i)
  {
  }

  /** Cleaning leaves every text column other than `ingredients_clean` reading as it did. */
  lemma CleanedReads(t: Table, ing: string, parse: LiteralParser, name: string, i: nat)
    requires WellFormed(t) && i < t.rows && ing in t.names
    requires name != "ingredients_clean"
    ensures name in Cleaned(t, ing, parse).names <==> name in t.names
    ensures name in t.names ==> Render(Column(Cleaned(t, ing, parse), name)[i]) == Render(Column(t, name)[i])
    ensures Column(Cleaned(t, ing, parse), "ingredients_clean")[i]
            == Str(CleanIngredients(Text(Render(Column(t, ing)[i])), parse))
  {
    var t1 := SetColumn(t, ing, AsStrings(Column(t, ing)));
    var t2 := SetColumn(t1, "ingredients_clean", CleanColumn(Column(t1, ing), parse));
    assert t2 == Cleaned(t, ing, parse);
    assert Render(Column(t1, ing)[i]) == Render(Column(t, ing)[i]) by {
      assert Column(t1, ing)[i] == Str(Render(Column(t, ing)[i]));
    }
    assert Column(t2, "ingredients_clean")[i] == CleanColumn(Column(t1, ing), parse)[i];
    CleanColumnAt(Column(t1, ing), parse, i);
    if name in t.names {
      assert Column(t2, name) == Column(t1, name);
      if name == ing {
        assert Column(t1, name)[i] == Str(Render(Column(t, ing)[i]));
      } else {
        assert Column(t1, name) == Column(t, name);
      }
    }
  }

  /** Filling changes no field text of another column. */
  lemma FillTextKeeps(t: Table, name: string, alt: Option<string>, other: string, oalt: Option<string>, i: nat)
    requires WellFormed(t) && i < t.rows
    requires other != name && (oalt.Some? ==> oalt.value != name)
    ensures FieldText(FillText(t, name, alt), other, oalt, i) == FieldText(t, other, oalt, i)
  {
    FillTextReads(t, name, alt, other, i);
    if oalt.Some? {
      FillTextReads(t, name, alt, oalt.value, i);
    }
  }

  /** The search text of a filled table, in terms of the table before filling. */
  lemma FilledSearchText(u: Table, i: nat)
    requires WellFormed(u) && i < u.rows && "ingredients_clean" in u.names
    ensures SearchText(Filled(u), i)
            == Render(Column(u, "ingredients_clean")[i]) + " "
               + FieldText(u, "instructions", Some("steps"), i) + " "
               + FieldText(u, "cuisine", None, i) + " "
               + FieldText(u, "title", Some("name"), i)
  {
    var t3 := FillText(u, "cuisine", None);
    var t4 := FillText(t3, "title", Some("name"));
    var t5 := FillText(t4, "instructions", Some("steps"));
    FillTextReads(u, "cuisine", None, "ingredients_clean", i);
    FillTextReads(t3, "title", Some("name"), "ingredients_clean", i);
    FillTextReads(t4, "instructions", Some("steps"), "ingredients_clean", i);
    assert Render(Column(t5, "ingredients_clean")[i]) == Render(Column(u, "ingredients_clean")[i]);
    FillTextReads(t4, "instructions", Some("steps"), "instructions", i);
    FillTextKeeps(u, "cuisine", None, "instructions", Some("steps"), i);
    FillTextKeeps(t3, "title", Some("name"), "instructions", Some("steps"), i);
    assert Render(Column(t5, "instructions")[i]) == FieldText(u, "instructions", Some("steps"), i);
    FillTextReads(u, "cuisine", None, "cuisine", i);
    FillTextReads(t3, "title", Some("name"), "cuisine", i);
    FillTextReads(t4, "instructions", Some("steps"), "cuisine", i);
    assert Render(Column(t5, "cuisine")[i]) == FieldText(u, "cuisine", None, i);
    FillTextReads(t3, "title", Some("name"), "title", i);
    FillTextKeeps(u, "cuisine", None, "title", Some("name"), i);
    FillTextReads(t4, "instructions", Some("steps"), "title", i);
    assert Render(Column(t5, "title")[i]) == FieldText(u, "title", Some("name"), i);
  }

  /** Cleaning changes no field text of the optional columns. */
  lemma CleanedKeeps(t: Table, ing: string, parse: LiteralParser, name: string, alt: Option<string>, i: nat)
    requires WellFormed(t) && i < t.rows && ing in t.names
    requires name != "ingredients_clean" && (alt.Some? ==> alt.value != "ingredients_clean")
    ensures FieldText(Cleaned(t, ing, parse), name, alt, i) == FieldText(t, name, alt, i)
  {
    CleanedReads(t, ing, parse, name, i);
    if alt.Some? {
      CleanedReads(t, ing, parse, alt.value, i);
    }
  }

  /**
   * Row `i` of `search_text` is the cleaned ingredients, the instructions (or
   * steps), the cuisine and the title (or name) of the loaded row, each absent
   * field contributing the empty string, joined by single spaces.
   */
  lemma SearchTextRow(t: Table, ing: string, parse: LiteralParser, i: nat)
    requires WellFormed(t) && i < t.rows && ing in t.names
    ensures Column(Prepared(t, ing, parse), "search_text")[i]
            == Str(CleanIngredients(Text(Render(Column(t, ing)[i])), parse) + " "
                   + FieldText(t, "instructions", Some("steps"), i) + " "
                   + FieldText(t, "cuisine", None, i) + " "
                   + FieldText(t, "title", Some("name"), i))
  {
    var t2 := Cleaned(t, ing, parse);
    SearchRowsAt(Filled(t2), t.rows, i);
    CleanedReads(t, ing, parse, "cuisine", i);
    FilledSearchText(t2, i);
    CleanedKeeps(t, ing, parse, "instructions", Some("steps"), i);
    CleanedKeeps(t, ing, parse, "cuisine", None, i);
    CleanedKeeps(t, ing, parse, "title", Some("name"), i);
  }
}
