/**
 * A recipe table as the recommender sees it: named columns of cells, every
 * column as long as the table has rows.
 */
module Tables {
  import opened Wrappers
  import opened TextUtil

  /**
   * One cell: missing (NaN or None), a string, a number together with the
   * text `str()` prints for it, or a boolean.
   */
  datatype Cell = Missing | Str(s: string) | Num(x: real, text: string) | Flag(b: bool)

  /** `str()` of a cell, as `astype(str)` produces it: a missing value prints as "nan". */
  function Render(c: Cell): (r: string)
    ensures c.Str? ==> r == c.s
  {
    match c
    case Missing => "nan"
    case Str(s) => s
    case Num(_, text) => text
    case Flag(b) => if b then "True" else "False"
  }

  datatype Table = Table(names: seq<string>, cols: seq<seq<Cell>>, rows: nat)

  /**
   * One cell list per name, each as long as the table. Names may repeat (a
   * rename can map two columns onto one name); a lookup finds the first.
   */
  ghost predicate WellFormed(t: Table)
  {
    && |t.names| == |t.cols|
    && (forall i :: 0 <= i < |t.cols| ==> |t.cols[i]| == t.rows)
  }

  /** The position of column `name`, when the table has one. */
  function ColumnIndex(names: seq<string>, name: string): (r: Option<nat>)
    ensures r.Some? ==> r.value < |names| && names[r.value] == name
    ensures r.Some? ==> forall j :: 0 <= j < r.value ==> names[j] != name
    ensures r.None? <==> name !in names
  {
    if names == [] then None
    else if names[0] == name then Some(0)
    else match ColumnIndex(names[1..], name)
      case Some(k) => Some(k + 1)
      case None => None
  }

  /** The cells of column `name`; all missing when there is no such column (what `res.get(name)` stands for). */
  function Column(t: Table, name: string): (r: seq<Cell>)
    requires WellFormed(t)
    ensures |r| == t.rows
  {
    match ColumnIndex(t.names, name)
    case Some(k) => t.cols[k]
    case None => seq(t.rows, _ => Missing)
  }

  /**
   * `df[name] = cells`: replaces the column when it exists, else appends a new
   * column at the end.
   */
  function SetColumn(t: Table, name: string, cells: seq<Cell>): (r: Table)
    requires WellFormed(t) && |cells| == t.rows
    ensures WellFormed(r) && r.rows == t.rows
    ensures name in r.names && Column(r, name) == cells
    ensures forall n :: n in r.names <==> n in t.names || n == name
    ensures forall n :: n in t.names && n != name ==> Column(r, n) == Column(t, n)
  {
    match ColumnIndex(t.names, name)
    case Some(k) =>
      var r := Table(t.names, t.cols[k := cells], t.rows);
      assert forall n :: n in t.names && n != name ==> ColumnIndex(r.names, n) == ColumnIndex(t.names, n);
      r
    case None =>
      var r := Table(t.names + [name], t.cols + [cells], t.rows);
      assert ColumnIndex(r.names, name) == Some(|t.names|) by { ColumnIndexAppend(t.names, name, name); }
      forall n | n in t.names && n != name
        ensures Column(r, n) == Column(t, n)
      {
        ColumnIndexAppend(t.names, name, n);
      }
      r
  }

  lemma {:induction false} ColumnIndexAppend(names: seq<string>, last: string, n: string)
    requires last !in names
    ensures ColumnIndex(names + [last], n) == if n in names then ColumnIndex(names, n) else if n == last then Some(|names|) else None
  {
    if names != [] {
      assert (names + [last])[1..] == names[1..] + [last];
      if names[0] != n {
        ColumnIndexAppend(names[1..], last, n);
      }
    }
  }

  /** `df[name].astype(str)`: every cell replaced by the string it prints as. */
  function AsStrings(cells: seq<Cell>): (r: seq<Cell>)
    ensures |r| == |cells|
    ensures forall i :: 0 <= i < |cells| ==> r[i] == Str(Render(cells[i]))
  {
    seq(|cells|, i requires 0 <= i < |cells| => Str(Render(cells[i])))
  }
}
