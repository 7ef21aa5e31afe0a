/**
 * The ingredient text normaliser `clean_ingredient_text`: split the raw value
 * into items, clean each item with three regular-expression substitutions,
 * drop the items that clean to nothing and join the rest with single spaces.
 */
module Preprocessing {
  import opened Wrappers
  import opened TextUtil

  /** What the cleaner is given: a string, or an already-sequenced collection of strings. */
  datatype RawIngredients = Text(s: string) | Items(items: seq<string>)

  /**
   * `ast.literal_eval` on a string that looks like a list: the list's items,
   * or None when the string is not a valid literal. The result type carries
   * the cleaner's requirement that every item of a parsed list is a string.
   */
  type LiteralParser = string -> Option<seq<string>>

  /** The cleaner's output form: lowercase letters separated by single spaces, none at either end. */
  ghost predicate Canonical(t: string) {
    && (forall i :: 0 <= i < |t| ==> IsLower(t[i]) || t[i] == ' ')
    && (t != [] ==> t[0] != ' ' && t[|t| - 1] != ' ')
    && NoDoubleSpace(t)
  }

  /** No two neighbouring characters of `t` are both spaces. */
  ghost predicate NoDoubleSpace(t: string) {
    forall i, j :: 0 <= i && j == i + 1 && j < |t| ==> !(t[i] == ' ' && t[j] == ' ')
  }

  /** No two neighbouring characters of `t` are both whitespace. */
  ghost predicate NoDoubleWhitespace(t: string) {
    forall i, j :: 0 <= i && j == i + 1 && j < |t| ==> !(IsSpace(t[i]) && IsSpace(t[j]))
  }

  // ---------------------------------------------------------------------------
  // Splitting into items

  predicate IsDelimiter(c: char) { c == ',' || c == ';' || c == '\n' }

  /** Length of the run of non-delimiters at the front of `s`. */
  function PieceLen(s: string): (n: nat)
    ensures n <= |s|
    ensures forall i :: 0 <= i < n ==> !IsDelimiter(s[i])
    ensures n < |s| ==> IsDelimiter(s[n])
  {
    if s != [] && !IsDelimiter(s[0]) then 1 + PieceLen(s[1..]) else 0
  }

  /** `re.split('[,;\n]', s)`: the pieces between delimiters, in order; there is always one more piece than delimiters. */
  function SplitPieces(s: string): (ps: seq<string>)
    ensures |ps| >= 1
    ensures forall k :: 0 <= k < |ps| ==> forall i :: 0 <= i < |ps[k]| ==> !IsDelimiter(ps[k][i])
    decreases |s|
  {
    var n := PieceLen(s);
    if n == |s| then [s] else [s[..n]] + SplitPieces(s[n + 1..])
  }

  /** Splitting at a delimiter splits the two sides independently. */
  lemma {:induction false} SplitPiecesAppend(a: string, d: char, b: string)
    requires IsDelimiter(d)
    ensures SplitPieces(a + [d] + b) == SplitPieces(a) + SplitPieces(b)
    decreases |a|
  {
    var n := PieceLen(a);
    if n == |a| {
      LastPieceThenRest(a, d, b);
    } else {
      var w, x, y := a[..n], SplitPieces(a[n + 1..]), SplitPieces(b);
      FirstPieceThenRest(a, d, b);
      SplitPiecesAppend(a[n + 1..], d, b);
      assert SplitPieces(a + [d] + b) == [w] + (x + y);
      ConsAppend(w, x, y);
      assert SplitPieces(a) + y == [w] + x + y;
    }
  }

  /** A delimiter after the last piece of `a` starts the pieces of `b`. */
  lemma LastPieceThenRest(a: string, d: char, b: string)
    requires IsDelimiter(d) && PieceLen(a) == |a|
    ensures SplitPieces(a) == [a] && SplitPieces(a + [d] + b) == [a] + SplitPieces(b)
  {
    var s := a + [d] + b;
    assert s == a + ([d] + b);
    PieceLenOfPrefix(a, [d] + b);
    TakeAppend(a, [d] + b, |a|);
    assert s[|a| + 1..] == b;
  }

  /** The first piece of `a` stays the first piece whatever follows a later delimiter. */
  lemma FirstPieceThenRest(a: string, d: char, b: string)
    requires IsDelimiter(d) && PieceLen(a) < |a|
    ensures var n := PieceLen(a);
            SplitPieces(a) == [a[..n]] + SplitPieces(a[n + 1..])
            && SplitPieces(a + [d] + b) == [a[..n]] + SplitPieces(a[n + 1..] + [d] + b)
  {
    var s := a + [d] + b;
    assert s == a + ([d] + b);
    var n := PieceLen(a);
    PieceLenOfPrefix(a, [d] + b);
    TakeAppend(a, [d] + b, n);
    DropAppend(a, [d] + b, n + 1);
    assert a[n + 1..] + ([d] + b) == a[n + 1..] + [d] + b;
  }

  lemma {:induction false} PieceLenOfPrefix(a: string, rest: string)
    requires rest != [] && IsDelimiter(rest[0])
    ensures PieceLen(a + rest) == PieceLen(a)
    decreases |a|
  {
    if a != [] && !IsDelimiter(a[0]) {
      assert (a + rest)[1..] == a[1..] + rest;
      PieceLenOfPrefix(a[1..], rest);
    } else if a == [] {
      assert a + rest == rest;
    }
  }

  /** `[i.strip() for i in pieces if i.strip()]`: stripped pieces, blank ones dropped, order kept. */
  function StrippedNonBlank(ps: seq<string>): (r: seq<string>)
    ensures forall k :: 0 <= k < |r| ==> r[k] != []
  {
    if ps == [] then []
    else (if Strip(ps[0]) != [] then [Strip(ps[0])] else []) + StrippedNonBlank(ps[1..])
  }

  lemma {:induction false} StrippedNonBlankAppend(a: seq<string>, b: seq<string>)
    ensures StrippedNonBlank(a + b) == StrippedNonBlank(a) + StrippedNonBlank(b)
  {
    if a != [] {
      assert (a + b)[1..] == a[1..] + b;
      StrippedNonBlankAppend(a[1..], b);
    } else {
      assert a + b == b;
    }
  }

  /** The test `ing_text.strip().startswith('[')`. */
  predicate LooksLikeList(s: string) { StartsWith(Strip(s), "[") }

  /** The items the cleaner loops over. */
  function ItemsOf(raw: RawIngredients, parse: LiteralParser): seq<string>
  {
    match raw
    case Text(s) =>
      if LooksLikeList(s) then
        (match parse(s) case Some(xs) => xs case None => [s])
      else
        StrippedNonBlank(SplitPieces(s))
    case Items(xs) => xs
  }

  // ---------------------------------------------------------------------------
  // Cleaning one item

  /**
   * The alternation `(cups?|cup|tbsp|tsp|tablespoon|teaspoon|grams?|g|kg|ml|l|oz|ounce|pinch|slice|slices|packet|packets)`
   * in the order the regex engine tries it (`cups?` is `cups` then `cup`, `grams?` is `grams` then `gram`).
   * There is no word boundary, so the first listed unit that is a prefix of the rest wins.
   */
  const Units: seq<string> := ["cups", "cup", "cup", "tbsp", "tsp", "tablespoon", "teaspoon", "grams", "gram",
                               "g", "kg", "ml", "l", "oz", "ounce", "pinch", "slice", "slices", "packet", "packets"]

  /** Length of the first of the alternatives `us` that is a prefix of `s`; 0 when none is. */
  function UnitFrom(s: string, us: seq<string>): (n: nat)
    ensures n <= |s|
    decreases |us|, |s|  // naming `s` too keeps a literal list of alternatives from being unrolled on its own
  {
    if us == [] then 0
    else if us[0] <= s then |us[0]|
    else UnitFrom(s, us[1..])
  }

  /** `UnitFrom` takes the first alternative in the group's order that is a prefix of `s`, and 0 only when none is. */
  lemma {:induction false} UnitFromFirst(s: string, us: seq<string>)
    requires forall i :: 0 <= i < |us| ==> us[i] != []
    ensures UnitFrom(s, us) > 0 ==> exists j :: 0 <= j < |us| && |us[j]| == UnitFrom(s, us) && us[j] <= s
                                              && forall i :: 0 <= i < j ==> !(us[i] <= s)
    ensures UnitFrom(s, us) == 0 ==> forall i :: 0 <= i < |us| ==> !(us[i] <= s)
    decreases |us|
  {
    if us != [] {
      if us[0] <= s {
        assert |us[0]| == UnitFrom(s, us);
      } else {
        var vs := us[1..];
        UnitFromFirst(s, vs);
        assert forall i :: 0 < i < |us| ==> us[i] == vs[i - 1];
        if UnitFrom(s, us) > 0 {
          var j :| 0 <= j < |vs| && |vs[j]| == UnitFrom(s, vs) && vs[j] <= s && forall i :: 0 <= i < j ==> !(vs[i] <= s);
          assert us[j + 1] == vs[j];
        }
      }
    }
  }

  predicate IsQuantityChar(c: char) { IsDigit(c) || c == '/' }

  /** Length of the run of digits and slashes at the front of `s` (`[\d/]+`). */
  function QuantityRun(s: string): (n: nat)
    ensures n <= |s|
    ensures forall i :: 0 <= i < n ==> IsQuantityChar(s[i])
    ensures n < |s| ==> !IsQuantityChar(s[n])
  {
    if s != [] && IsQuantityChar(s[0]) then 1 + QuantityRun(s[1..]) else 0
  }

  /**
   * Length of the match of `[\d/]+(\.\d+)?\s*(u_1|u_2|...)?` at the front of
   * `s`, for the alternatives `us`: every part is greedy and the rest of the
   * pattern is optional, so the first choice at each part is the one taken.
   */
  function MatchLen(s: string, us: seq<string>): (n: nat)
    requires s != [] && IsQuantityChar(s[0])
    ensures QuantityRun(s) <= n <= |s|
  {
    var c := UnitStart(s);
    c + UnitFrom(s[c..], us)
  }

  /** End of `[\d/]+(\.\d+)?` at the front of `s`: the fraction is taken only when a digit follows the dot. */
  function NumberEnd(s: string): (b: nat)
    ensures QuantityRun(s) <= b <= |s|
  {
    var a := QuantityRun(s);
    if a < |s| && s[a] == '.' && DigitRun(s[a + 1..]) > 0 then a + 1 + DigitRun(s[a + 1..]) else a
  }

  /** End of the whitespace after the number, where the unit group is tried. */
  function UnitStart(s: string): (c: nat)
    ensures NumberEnd(s) <= c <= |s|
  {
    var b := NumberEnd(s);
    b + LeadingSpace(s[b..])
  }

  /** Length of the match of the quantity pattern, with the unit group of the cleaner, at the front of `s`. */
  function QuantityLen(s: string): (n: nat)
    requires s != [] && IsQuantityChar(s[0])
    ensures QuantityRun(s) <= n <= |s|
  {
    MatchLen(s, Units)
  }

  /**
   * The positions `b` and `c` split the front of `s` as the greedy pattern
   * does: `s[..a]` is the longest run of digits and slashes (`a` its
   * length), `s[a..b]` is a dot and the longest digit run after it (empty
   * when no digit follows a dot there), and `s[b..c]` is the longest run of
   * whitespace after that.
   */
  ghost predicate QuantityParts(s: string, b: nat, c: nat)
  {
    var a := QuantityRun(s);
    && 0 < a <= b <= c <= |s|
    && (forall i :: 0 <= i < a ==> IsQuantityChar(s[i])) && (a < |s| ==> !IsQuantityChar(s[a]))
    && (if a + 1 < |s| && s[a] == '.' && IsDigit(s[a + 1]) then
          a + 2 <= b && (forall i :: a < i < b ==> IsDigit(s[i])) && (b < |s| ==> !IsDigit(s[b]))
        else b == a)
    && (forall i :: b <= i < c ==> IsSpace(s[i])) && (c < |s| ==> !IsSpace(s[c]))
  }

  /** `u[..m]` is the first of the alternatives `us` that is a prefix of `u`, or `m` is 0 when none is. */
  ghost predicate FirstUnit(u: string, m: nat, us: seq<string>)
  {
    || (m == 0 && forall i :: 0 <= i < |us| ==> !(us[i] <= u))
    || (exists j :: 0 <= j < |us| && |us[j]| == m && us[j] <= u && forall i :: 0 <= i < j ==> !(us[i] <= u))
  }

  /** `s[..n]` is the match of `[\d/]+(\.\d+)?\s*(u_1|u_2|...)?` at the front of `s`, for the alternatives `us`. */
  ghost predicate QuantityMatch(s: string, n: nat, us: seq<string>)
  {
    exists b: nat, c: nat :: QuantityParts(s, b, c) && c <= n <= |s| && FirstUnit(s[c..], n - c, us)
  }

  /** `NumberEnd` and `UnitStart` split the front of `s` as the greedy pattern does. */
  lemma PartsOfMatch(s: string)
    requires s != [] && IsQuantityChar(s[0])
    ensures QuantityParts(s, NumberEnd(s), UnitStart(s))
  {
  }

  /** What `MatchLen` computes is the greedy match of the pattern, part by part. */
  lemma MatchLenMatches(s: string, us: seq<string>)
    requires s != [] && IsQuantityChar(s[0])
    requires forall i :: 0 <= i < |us| ==> us[i] != []
    ensures QuantityMatch(s, MatchLen(s, us), us)
  {
    var c := UnitStart(s);
    PartsOfMatch(s);
    assert FirstUnit(s[c..], MatchLen(s, us) - c, us) by {
      UnitFromFirst(s[c..], us);
    }
  }

  /** The quantity the cleaner removes is the greedy match of its pattern. */
  lemma QuantityLenMatches(s: string)
    requires s != [] && IsQuantityChar(s[0])
    ensures QuantityMatch(s, QuantityLen(s), Units)
  {
    assert forall i :: 0 <= i < |Units| ==> Units[i] != [];
    MatchLenMatches(s, Units);
  }

  /** The first substitution, removing every quantity match; no digit or slash survives it. */
  function StripQuantities(s: string): (r: string)
    ensures |r| <= |s|
    ensures forall i :: 0 <= i < |r| ==> !IsQuantityChar(r[i])
    decreases |s|
  {
    if s == [] then []
    else if IsQuantityChar(s[0]) then StripQuantities(s[QuantityLen(s)..])
    else [s[0]] + StripQuantities(s[1..])
  }

  /** Text without digits or slashes passes the first substitution unchanged. */
  lemma {:induction false} StripQuantitiesUnchanged(s: string)
    requires forall i :: 0 <= i < |s| ==> !IsQuantityChar(s[i])
    ensures StripQuantities(s) == s
  {
    if s != [] {
      StripQuantitiesUnchanged(s[1..]);
    }
  }

  /** The second substitution `[^a-z\s]` to a space. */
  function LettersAndSpaces(s: string): string
  {
    seq(|s|, i requires 0 <= i < |s| => if IsLower(s[i]) || IsSpace(s[i]) then s[i] else ' ')
  }

  /** The third substitution `\s+` to a single space. */
  function CollapseSpaces(s: string): string
    decreases |s|
  {
    if s == [] then []
    else if IsSpace(s[0]) then " " + CollapseSpaces(s[LeadingSpace(s)..])
    else [s[0]] + CollapseSpaces(s[1..])
  }

  /**
   * After the third substitution every whitespace is a plain space, no two
   * are adjacent, and text made of letters and whitespace becomes letters and spaces.
   */
  lemma {:induction false} CollapseSpacesShape(s: string)
    ensures (CollapseSpaces(s) == []) == (s == [])
    ensures CollapseSpaces(s) != [] ==> (IsSpace(CollapseSpaces(s)[0]) <==> IsSpace(s[0]))
    ensures forall i :: 0 <= i < |CollapseSpaces(s)| ==> (IsSpace(CollapseSpaces(s)[i]) ==> CollapseSpaces(s)[i] == ' ')
    ensures NoDoubleWhitespace(CollapseSpaces(s))
    ensures (forall i :: 0 <= i < |s| ==> IsLower(s[i]) || IsSpace(s[i])) ==>
              forall i :: 0 <= i < |CollapseSpaces(s)| ==> IsLower(CollapseSpaces(s)[i]) || CollapseSpaces(s)[i] == ' '
    decreases |s|
  {
    if s != [] {
      var t := if IsSpace(s[0]) then s[LeadingSpace(s)..] else s[1..];
      CollapseSpacesShape(t);
      var r := CollapseSpaces(s);
      var rt := CollapseSpaces(t);
      assert r == (if IsSpace(s[0]) then " " else [s[0]]) + rt;
      assert forall i :: 1 <= i < |r| ==> r[i] == rt[i - 1];
      if (forall i :: 0 <= i < |s| ==> IsLower(s[i]) || IsSpace(s[i])) {
        assert forall i :: 0 <= i < |t| ==> IsLower(t[i]) || IsSpace(t[i]);
      }
    }
  }

  /** Text in which every whitespace is a single space between non-spaces passes the third substitution unchanged. */
  lemma {:induction false} CollapseSpacesUnchanged(s: string)
    requires forall i :: 0 <= i < |s| ==> IsLower(s[i]) || s[i] == ' '
    requires NoDoubleSpace(s)
    ensures CollapseSpaces(s) == s
  {
    if s != [] {
      if IsSpace(s[0]) {
        assert |s| > 1 ==> !IsSpace(s[1]);
        assert LeadingSpace(s) == 1;
      }
      CollapseSpacesUnchanged(s[1..]);
    }
  }

  /** One item through lowercase and the three substitutions, then stripped. */
  function CleanItem(it: string): string
  {
    Strip(CollapseSpaces(LettersAndSpaces(StripQuantities(Lower(it)))))
  }

  /** Every cleaned item is in canonical form. */
  lemma CleanItemCanonical(it: string)
    ensures Canonical(CleanItem(it))
  {
    CollapseSpacesShape(LettersAndSpaces(StripQuantities(Lower(it))));
    StripKeepsNoDoubleSpace(CollapseSpaces(LettersAndSpaces(StripQuantities(Lower(it)))));
  }

  lemma StripKeepsNoDoubleSpace(y: string)
    requires forall i :: 0 <= i < |y| ==> IsLower(y[i]) || y[i] == ' '
    requires NoDoubleWhitespace(y)
    ensures Canonical(Strip(y))
  {
    var a := LeadingSpace(y);
    var z := Strip(y);
    assert forall i :: 0 <= i < |z| ==> z[i] == y[a + i];
    assert forall i :: 0 <= i < |z| ==> IsLower(z[i]) || z[i] == ' ';
    forall i, j | 0 <= i && j == i + 1 && j < |z|
      ensures !(z[i] == ' ' && z[j] == ' ')
    {
      assert z[i] == y[a + i] && z[j] == y[a + i + 1];
    }
  }

  // ---------------------------------------------------------------------------
  // The whole cleaner

  /** What one item contributes: its cleaned form, unless that is empty. */
  function Kept(it: string): (r: seq<string>)
    ensures |r| <= 1 && forall k :: 0 <= k < |r| ==> r[k] != []
  {
    if CleanItem(it) != [] then [CleanItem(it)] else []
  }

  /** The cleaned items that are not empty, in item order. */
  function Survivors(items: seq<string>): (r: seq<string>)
    ensures forall k :: 0 <= k < |r| ==> r[k] != []
  {
    if items == [] then [] else Kept(items[0]) + Survivors(items[1..])
  }

  lemma SurvivorsCons(x: string, rest: seq<string>)
    ensures Survivors([x] + rest) == Kept(x) + Survivors(rest)
  {
    assert ([x] + rest)[0] == x && ([x] + rest)[1..] == rest;
  }

  lemma {:induction false} SurvivorsAppend(a: seq<string>, b: seq<string>)
    ensures Survivors(a + b) == Survivors(a) + Survivors(b)
  {
    if a == [] {
      assert a + b == b;
    } else {
      var x, rest := a[0], a[1..];
      assert a == [x] + rest;
      assert a + b == [x] + (rest + b);
      calc {
        Survivors(a + b);
        { SurvivorsCons(x, rest + b); }
        Kept(x) + Survivors(rest + b);
        { SurvivorsAppend(rest, b); }
        Kept(x) + (Survivors(rest) + Survivors(b));
        (Kept(x) + Survivors(rest)) + Survivors(b);
        { SurvivorsCons(x, rest); }
        Survivors(a) + Survivors(b);
      }
    }
  }

  lemma {:induction false} SurvivorsCanonical(items: seq<string>)
    ensures forall k :: 0 <= k < |Survivors(items)| ==> Canonical(Survivors(items)[k])
  {
    if items != [] {
      CleanItemCanonical(items[0]);
      SurvivorsCanonical(items[1..]);
    }
  }

  lemma SurvivorsStep(items: seq<string>, i: nat)
    requires i < |items|
    ensures Survivors(items[..i + 1]) == Survivors(items[..i]) + (if CleanItem(items[i]) != [] then [CleanItem(items[i])] else [])
  {
    assert items[..i + 1] == items[..i] + [items[i]];
    SurvivorsAppend(items[..i], [items[i]]);
    assert Survivors([items[i]]) == (if CleanItem(items[i]) != [] then [CleanItem(items[i])] else []) + Survivors([]);
  }

  /** The cleaner's result as a function of its input: canonical, and so free of digits. */
  function CleanIngredients(raw: RawIngredients, parse: LiteralParser): (r: string)
    ensures Canonical(r)
    ensures forall i :: 0 <= i < |r| ==> !IsDigit(r[i])
  {
    var xs := Survivors(ItemsOf(raw, parse));
    SurvivorsCanonical(ItemsOf(raw, parse));
    JoinCanonical(xs);
    Join(xs, " ")
  }

  lemma ConcatCanonical(a: string, b: string)
    requires Canonical(a) && Canonical(b) && a != [] && b != []
    ensures Canonical(a + " " + b)
  {
    var c := a + " " + b;
    assert forall i :: 0 <= i < |a| ==> c[i] == a[i];
    assert c[|a|] == ' ';
    assert forall i :: 0 <= i < |b| ==> c[|a| + 1 + i] == b[i];
    forall i, j | 0 <= i && j == i + 1 && j < |c|
      ensures !(c[i] == ' ' && c[j] == ' ')
    {
      if i < |a| - 1 {
        assert c[i] == a[i] && c[j] == a[j];
      } else if i == |a| - 1 {
      } else if i == |a| {
        assert c[j] == b[0];
      } else {
        assert c[i] == b[i - |a| - 1] && c[j] == b[j - |a| - 1];
      }
    }
  }

  lemma {:induction false} JoinCanonical(xs: seq<string>)
    requires forall k :: 0 <= k < |xs| ==> xs[k] != [] && Canonical(xs[k])
    ensures Canonical(Join(xs, " "))
    ensures xs != [] ==> Join(xs, " ") != []
  {
    if |xs| > 1 {
      JoinCanonical(xs[1..]);
      ConcatCanonical(xs[0], Join(xs[1..], " "));
    }
  }

  /** Two cleaned texts combined as the join of their items would combine them. */
  function Glue(x: string, y: string): string
  {
    if x == [] then y else if y == [] then x else x + " " + y
  }

  lemma {:induction false} JoinAppend(xs: seq<string>, ys: seq<string>)
    requires forall k :: 0 <= k < |xs| ==> xs[k] != []
    requires forall k :: 0 <= k < |ys| ==> ys[k] != []
    ensures Join(xs + ys, " ") == Glue(Join(xs, " "), Join(ys, " "))
  {
    if xs == [] {
      assert xs + ys == ys;
    } else if |xs| == 1 {
      if ys != [] {
        assert (xs + ys)[1..] == ys;
      }
    } else {
      assert (xs + ys)[1..] == xs[1..] + ys;
      JoinAppend(xs[1..], ys);
      JoinNonEmpty(xs[1..]);
    }
  }

  lemma {:induction false} JoinNonEmpty(xs: seq<string>)
    requires xs != [] && forall k :: 0 <= k < |xs| ==> xs[k] != []
    ensures Join(xs, " ") != []
  {
    if |xs| > 1 {
      JoinNonEmpty(xs[1..]);
    }
  }

  /**
   * `clean_ingredient_text`: the loop over the items rewrites each one step
   * by step and appends the non-empty results; they are joined with spaces.
   */
  method CleanIngredientText(raw: RawIngredients, parse: LiteralParser) returns (out: string)
    ensures out == CleanIngredients(raw, parse)
  {
    var items: seq<string>;
    if raw.Text? && LooksLikeList(raw.s) {
      match parse(raw.s) {
        case Some(xs) => items := xs;
        case None => items := [raw.s];
      }
    } else if raw.Text? {
      items := StrippedNonBlank(SplitPieces(raw.s));
    } else {
      items := raw.items;
    }
    assert items == ItemsOf(raw, parse);
    var cleaned: seq<string> := [];
    var i := 0;
    while i < |items|
      invariant 0 <= i <= |items|
      invariant cleaned == Survivors(items[..i])
    {
      var s := Lower(items[i]);
      s := StripQuantities(s);
      s := LettersAndSpaces(s);
      s := Strip(CollapseSpaces(s));
      assert s == CleanItem(items[i]);
      if s != [] {
        cleaned := cleaned + [s];
      }
      SurvivorsStep(items, i);
      i := i + 1;
    }
    assert items[..i] == items;
    out := Join(cleaned, " ");
  }

  // ---------------------------------------------------------------------------
  // Properties

  /** A string that looks like a list but is no valid literal is cleaned as one single item. */
  lemma MalformedListIsOneItem(s: string, parse: LiteralParser)
    requires LooksLikeList(s) && parse(s).None?
    ensures CleanIngredients(Text(s), parse) == CleanItem(s)
  {
    assert ItemsOf(Text(s), parse) == [s];
    assert Survivors([s]) == (if CleanItem(s) != [] then [CleanItem(s)] else []) + Survivors([]);
  }

  /**
   * A plain string is cut at each `,`, `;` and newline, and the two sides are
   * cleaned independently and kept in their original order.
   */
  lemma SplitAtDelimiter(a: string, d: char, b: string, parse: LiteralParser)
    requires IsDelimiter(d)
    requires !LooksLikeList(a) && !LooksLikeList(b) && !LooksLikeList(a + [d] + b)
    ensures CleanIngredients(Text(a + [d] + b), parse)
            == Glue(CleanIngredients(Text(a), parse), CleanIngredients(Text(b), parse))
  {
    SplitPiecesAppend(a, d, b);
    StrippedNonBlankAppend(SplitPieces(a), SplitPieces(b));
    var xa := StrippedNonBlank(SplitPieces(a));
    var xb := StrippedNonBlank(SplitPieces(b));
    SurvivorsAppend(xa, xb);
    JoinAppend(Survivors(xa), Survivors(xb));
  }

  /** A canonical item passes the item cleaning unchanged. */
  lemma CleanItemFixed(t: string)
    requires Canonical(t)
    ensures CleanItem(t) == t
  {
    assert Lower(t) == t by {
      assert forall i :: 0 <= i < |t| ==> !IsUpper(t[i]);
      LowerOfLowerIsSame(t);
    }
    assert StripQuantities(t) == t by {
      assert forall i :: 0 <= i < |t| ==> !IsQuantityChar(t[i]);
      StripQuantitiesUnchanged(t);
    }
    assert LettersAndSpaces(t) == t;
    assert CollapseSpaces(t) == t by {
      CollapseSpacesUnchanged(t);
    }
    assert Strip(t) == t by {
      StripUnchanged(t);
    }
  }

  /** Cleaning canonical text gives it back unchanged. */
  lemma CanonicalIsFixed(t: string, parse: LiteralParser)
    requires Canonical(t)
    ensures CleanIngredients(Text(t), parse) == t
  {
    StripUnchanged(t);
    assert !LooksLikeList(t);
    OneItem(t, parse);
    if t != [] {
      CleanItemFixed(t);
    }
  }

  /** The cleaner is idempotent: cleaning its own output changes nothing. */
  lemma CleanIsIdempotent(raw: RawIngredients, parse: LiteralParser)
    ensures CleanIngredients(Text(CleanIngredients(raw, parse)), parse) == CleanIngredients(raw, parse)
  {
    CanonicalIsFixed(CleanIngredients(raw, parse), parse);
  }

  // ---------------------------------------------------------------------------
  // Worked examples

  /** A delimiter-free string that does not look like a list is one item, stripped. */
  lemma OneItem(x: string, parse: LiteralParser)
    requires forall i :: 0 <= i < |x| ==> !IsDelimiter(x[i])
    requires !LooksLikeList(x)
    ensures CleanIngredients(Text(x), parse) == if Strip(x) == [] then [] else CleanItem(Strip(x))
  {
    assert SplitPieces(x) == [x];
    assert StrippedNonBlank([x]) == (if Strip(x) != [] then [Strip(x)] else []) + StrippedNonBlank([]);
    if Strip(x) != [] {
      assert Survivors([Strip(x)]) == (if CleanItem(Strip(x)) != [] then [CleanItem(Strip(x))] else []) + Survivors([]);
    }
  }

  /** Stripping starts at the first non-whitespace character. */
  lemma StripStartsAt(s: string, k: nat)
    requires k < |s| && !IsSpace(s[k])
    requires forall i :: 0 <= i < k ==> IsSpace(s[i])
    ensures Strip(s) != [] && Strip(s)[0] == s[k]
  {
    assert LeadingSpace(s) == k;
    var t := s[k..];
    assert t[0] == s[k];
    assert TrailingSpace(t) < |t|;
  }

  /** Stripping a space followed by a word gives the word. */
  lemma StripSpaceWord(r: string)
    requires |r| >= 2 && r[0] == ' ' && !IsSpace(r[1]) && !IsSpace(r[|r| - 1])
    ensures Strip(r) == r[1..]
  {
    assert LeadingSpace(r) == 1;
    StripUnchanged(r[1..]);
  }

  /** What is left of an item after its leading quantity match, once cleaned. */
  lemma CleanAfterQuantity(s: string, rest: string)
    requires s != [] && IsQuantityChar(s[0]) && s[QuantityLen(s)..] == rest
    requires forall i :: 0 <= i < |s| ==> !IsUpper(s[i])
    requires forall i :: 0 <= i < |rest| ==> IsLower(rest[i]) || rest[i] == ' '
    requires NoDoubleSpace(rest)
    ensures CleanItem(s) == Strip(rest)
  {
    LowerOfLowerIsSame(s);
    StripQuantitiesUnchanged(rest);
    assert StripQuantities(s) == rest;
    assert LettersAndSpaces(rest) == rest;
    CollapseSpacesUnchanged(rest);
  }

  /** A space and then a lower-case word: what the later substitutions leave alone. */
  lemma SpaceWordShape(s: string, n: nat)
    requires n + 2 <= |s| && s[n] == ' '
    requires forall i :: n + 1 <= i < |s| ==> IsLower(s[i])
    ensures forall i :: 0 <= i < |s[n..]| ==> IsLower(s[n..][i]) || s[n..][i] == ' '
    ensures NoDoubleSpace(s[n..])
    ensures |s[n..]| >= 2 && s[n..][0] == ' ' && !IsSpace(s[n..][1]) && !IsSpace(s[n..][|s[n..]| - 1])
    ensures s[n..][1..] == s[n + 1..]
  {
  }

  /** An item whose quantity match is followed by one space and a lower-case word cleans to that word. */
  lemma QuantityThenWord(s: string, n: nat)
    requires s != [] && IsQuantityChar(s[0]) && QuantityLen(s) == n
    requires forall i :: 0 <= i < |s| ==> !IsUpper(s[i])
    requires n + 2 <= |s| && s[n] == ' '
    requires forall i :: n + 1 <= i < |s| ==> IsLower(s[i])
    ensures CleanItem(s) == s[n + 1..]
  {
    SpaceWordShape(s, n);
    CleanAfterQuantity(s, s[n..]);
    StripSpaceWord(s[n..]);
  }

  lemma CupsUnit(t: string)
    requires t == "cups flour"
    ensures UnitFrom(t, Units) == 4
  {
    assert Units[0] <= t;
  }

  /** The quantity match of `2 cups flour` is `2 cups`. */
  lemma CupsFlourQuantity(s: string)
    requires s == "2 cups flour"
    ensures QuantityLen(s) == 6
  {
    assert s[2..] == "cups flour";
    CupsUnit(s[2..]);
    DigitSpaceUnit(s, 4);
  }

  /** `2 cups flour` has no upper case, and one space and the word `flour` follow its first six characters. */
  lemma CupsFlourShape(s: string)
    requires s == "2 cups flour"
    ensures s[6] == ' ' && s[7..] == "flour"
    ensures forall i :: 0 <= i < |s| ==> !IsUpper(s[i])
    ensures forall i :: 7 <= i < |s| ==> IsLower(s[i])
  {
    assert forall i :: 0 <= i < |s| ==> !IsUpper(s[i]);
    assert forall i :: 7 <= i < |s| ==> IsLower(s[i]);
  }

  lemma CupsFlour(s: string)
    requires s == "2 cups flour"
    ensures CleanItem(s) == "flour"
  {
    CupsFlourShape(s);
    CupsFlourQuantity(s);
    QuantityThenWord(s, 6);
  }

  lemma TspUnit(t: string)
    requires t == "tsp salt"
    ensures UnitFrom(t, Units) == 3
  {
    assert Units[4] == t[..3];
    forall i | 0 <= i < 4
      ensures !(Units[i] <= t)
    {
      assert Units[i][1] != t[1];
    }
    UnitSkip(t, Units, 4);
  }

  /** The quantity match of `1 tsp salt` is `1 tsp`. */
  lemma TspSaltQuantity(s: string)
    requires s == "1 tsp salt"
    ensures QuantityLen(s) == 5
  {
    assert s[2..] == "tsp salt";
    TspUnit(s[2..]);
    DigitSpaceUnit(s, 3);
  }

  /** `1 tsp salt` has no upper case, and one space and the word `salt` follow its first five characters. */
  lemma TspSaltShape(s: string)
    requires s == "1 tsp salt"
    ensures s[5] == ' ' && s[6..] == "salt"
    ensures forall i :: 0 <= i < |s| ==> !IsUpper(s[i])
    ensures forall i :: 6 <= i < |s| ==> IsLower(s[i])
  {
    assert forall i :: 0 <= i < |s| ==> !IsUpper(s[i]);
    assert forall i :: 6 <= i < |s| ==> IsLower(s[i]);
  }

  lemma TspSalt(s: string)
    requires s == "1 tsp salt"
    ensures CleanItem(s) == "salt"
  {
    TspSaltShape(s);
    TspSaltQuantity(s);
    QuantityThenWord(s, 5);
  }

  /** An item whose quantity match runs straight into lower-case text with single inner spaces cleans to that text. */
  lemma QuantityThenText(s: string, n: nat)
    requires s != [] && IsQuantityChar(s[0]) && QuantityLen(s) == n
    requires forall i :: 0 <= i < |s| ==> !IsUpper(s[i])
    requires n < |s| && Canonical(s[n..])
    ensures CleanItem(s) == s[n..]
  {
    var rest := s[n..];
    assert !IsSpace(rest[0]) && !IsSpace(rest[|rest| - 1]) by {
      assert IsLower(rest[0]) && IsLower(rest[|rest| - 1]);
    }
    StripUnchanged(rest);
    CleanAfterQuantity(s, rest);
  }

  /** Alternatives that are no prefix of `t` are passed over. */
  lemma {:induction false} UnitSkip(t: string, us: seq<string>, m: nat)
    requires m <= |us|
    requires forall i :: 0 <= i < m ==> !(us[i] <= t)
    ensures UnitFrom(t, us) == UnitFrom(t, us[m..])
    decreases m
  {
    if m > 0 {
      assert forall i :: 0 <= i < m - 1 ==> us[1..][i] == us[i + 1];
      UnitSkip(t, us[1..], m - 1);
      assert us[1..][m - 1..] == us[m..];
    }
  }

  /** A lower-case word is canonical text. */
  lemma OneWord(a: string)
    requires a != [] && forall i :: 0 <= i < |a| ==> IsLower(a[i])
    ensures Canonical(a)
  {
  }

  /** Two lower-case words joined by one space are canonical text. */
  lemma TwoWords(a: string, b: string)
    requires a != [] && forall i :: 0 <= i < |a| ==> IsLower(a[i])
    requires b != [] && forall i :: 0 <= i < |b| ==> IsLower(b[i])
    ensures Canonical(a + " " + b)
  {
    ConcatCanonical(a, b);
  }

  /** No unit before `l` starts with an `l`, so `l` is what the group takes from `large eggs`. */
  lemma LargeUnit(t: string)
    requires t == "large eggs"
    ensures UnitFrom(t, Units) == 1
  {
    assert Units[12] == t[..1];
    forall i | 0 <= i < 12
      ensures !(Units[i] <= t)
    {
      assert Units[i][0] != t[0];
    }
    UnitSkip(t, Units, 12);
  }

  /** The quantity match of `2 large eggs` is `2 l`. */
  lemma LargeEggsQuantity(s: string)
    requires s == "2 large eggs"
    ensures QuantityLen(s) == 3
  {
    assert s[2..] == "large eggs";
    LargeUnit(s[2..]);
    DigitSpaceUnit(s, 1);
  }

  /** `2 large eggs` has no upper case, and `arge eggs` follows its first three characters. */
  lemma LargeEggsShape(s: string)
    requires s == "2 large eggs"
    ensures s[3..] == "arge eggs"
    ensures forall i :: 0 <= i < |s| ==> !IsUpper(s[i])
  {
    assert forall i :: 0 <= i < |s| ==> !IsUpper(s[i]);
  }

  /** There is no word boundary after the unit: the `l` of `large` is taken for litres. */
  lemma LargeEggs()
    ensures CleanItem("2 large eggs") == "arge eggs"
  {
    var s := "2 large eggs";
    assert s[3..] == "arge" + " " + "eggs";
    TwoWords("arge", "eggs");
    LargeEggsShape(s);
    LargeEggsQuantity(s);
    QuantityThenText(s, 3);
  }

  /** `grams` and `gram` fail on the second letter, so the group takes the `g` of `garlic`. */
  lemma GarlicUnit(t: string)
    requires t == "garlic"
    ensures UnitFrom(t, Units) == 1
  {
    assert Units[9] == t[..1];
    forall i | 0 <= i < 9
      ensures !(Units[i] <= t)
    {
      if i < 7 {
        assert Units[i][0] != t[0];
      } else {
        assert Units[i][1] != t[1];
      }
    }
    UnitSkip(t, Units, 9);
  }

  /** A quantity run of length `a` followed by no fraction, `c - a` spaces and a unit of length `u` matches `c + u` characters. */
  lemma MatchLenOf(s: string, a: nat, c: nat, u: nat, us: seq<string>)
    requires s != [] && IsQuantityChar(s[0])
    requires QuantityRun(s) == a < |s| && s[a] != '.'
    requires a <= c <= |s| && LeadingSpace(s[a..]) == c - a
    requires UnitFrom(s[c..], us) == u
    ensures MatchLen(s, us) == c + u
  {
    assert NumberEnd(s) == a;
    assert UnitStart(s) == c;
  }

  /** One digit, one space and a unit of length `u`: the quantity match is the digit, the space and the unit. */
  lemma DigitSpaceUnit(s: string, u: nat)
    requires |s| >= 3 && IsDigit(s[0]) && s[1] == ' ' && !IsSpace(s[2])
    requires UnitFrom(s[2..], Units) == u
    ensures QuantityLen(s) == 2 + u
  {
    assert QuantityRun(s[1..]) == 0;
    assert LeadingSpace(s[2..]) == 0;
    assert LeadingSpace(s[1..]) == 1 by {
      assert s[1..][1..] == s[2..];
    }
    MatchLenOf(s, 1, 2, u, Units);
  }

  /** The quantity match of `2 garlic` is `2 g`. */
  lemma GarlicQuantity(s: string)
    requires s == "2 garlic"
    ensures QuantityLen(s) == 3
  {
    assert s[2..] == "garlic";
    GarlicUnit(s[2..]);
    DigitSpaceUnit(s, 1);
  }

  /** `2 garlic` has no upper case, and `arlic` follows its first three characters. */
  lemma GarlicShape(s: string)
    requires s == "2 garlic"
    ensures s[3..] == "arlic"
    ensures forall i :: 0 <= i < |s| ==> !IsUpper(s[i])
  {
    assert forall i :: 0 <= i < |s| ==> !IsUpper(s[i]);
  }

  /** The `g` of `garlic` is taken for grams. */
  lemma Garlic()
    ensures CleanItem("2 garlic") == "arlic"
  {
    var s := "2 garlic";
    OneWord("arlic");
    GarlicShape(s);
    GarlicQuantity(s);
    QuantityThenText(s, 3);
  }

  /** `slice` is listed before `slices`, so the group takes `slice` from `slices bread`. */
  lemma SlicesUnit(t: string)
    requires t == "slices bread"
    ensures UnitFrom(t, Units) == 5
  {
    assert Units[16] == t[..5];
    forall i | 0 <= i < 16
      ensures !(Units[i] <= t)
    {
      assert Units[i][0] != t[0];
    }
    UnitSkip(t, Units, 16);
  }

  /** The quantity match of `2 slices bread` is `2 slice`. */
  lemma SlicesBreadQuantity(s: string)
    requires s == "2 slices bread"
    ensures QuantityLen(s) == 7
  {
    assert s[2..] == "slices bread";
    SlicesUnit(s[2..]);
    DigitSpaceUnit(s, 5);
  }

  /** `2 slices bread` has no upper case, and `s bread` follows its first seven characters. */
  lemma SlicesBreadShape(s: string)
    requires s == "2 slices bread"
    ensures s[7..] == "s bread"
    ensures forall i :: 0 <= i < |s| ==> !IsUpper(s[i])
  {
    assert forall i :: 0 <= i < |s| ==> !IsUpper(s[i]);
  }

  /** The plural `s` of `slices` survives the quantity substitution. */
  lemma SlicesBread()
    ensures CleanItem("2 slices bread") == "s bread"
  {
    var s := "2 slices bread";
    assert s[7..] == "s" + " " + "bread";
    TwoWords("s", "bread");
    SlicesBreadShape(s);
    SlicesBreadQuantity(s);
    QuantityThenText(s, 7);
  }

  /** Quantities and units are removed from every comma-separated item. */
  lemma CupsFlourText(parse: LiteralParser)
    ensures CleanIngredients(Text("2 cups flour"), parse) == "flour"
  {
    var a := "2 cups flour";
    CupsFlourItem(a, parse);
    CupsFlour(a);
  }

  /** `2 cups flour` is one item with no whitespace at either end, so it is cleaned as it stands. */
  lemma CupsFlourItem(a: string, parse: LiteralParser)
    requires a == "2 cups flour"
    ensures CleanIngredients(Text(a), parse) == CleanItem(a)
  {
    assert forall i :: 0 <= i < |a| ==> !IsDelimiter(a[i]);
    StripStartsAt(a, 0);
    StripUnchanged(a);
    OneItem(a, parse);
  }

  lemma TspSaltText(parse: LiteralParser)
    ensures CleanIngredients(Text(" 1 tsp salt"), parse) == "salt"
  {
    var b := " 1 tsp salt";
    assert forall i :: 0 <= i < |b| ==> !IsDelimiter(b[i]);
    StripSpaceWord(b);
    OneItem(b, parse);
    TspSalt("1 tsp salt");
  }

  lemma GlueFlourSalt()
    ensures Glue("flour", "salt") == "flour salt"
  {
  }

  /** Two items separated by a comma: quantities and units go, the names are joined by a space. */
  lemma CupsFlourTspSalt(parse: LiteralParser)
    ensures CleanIngredients(Text("2 cups flour, 1 tsp salt"), parse) == "flour salt"
  {
    var a, b := "2 cups flour", " 1 tsp salt";
    assert "2 cups flour, 1 tsp salt" == a + [','] + b;
    StripStartsAt(a, 0);
    StripStartsAt(b, 1);
    StripStartsAt(a + [','] + b, 0);
    SplitAtDelimiter(a, ',', b, parse);
    CupsFlourText(parse);
    TspSaltText(parse);
    GlueFlourSalt();
  }
}
