/**
 * The parser for the `nutrition` field of a recipe row: a bracketed list of
 * numbers decoded by fixed positions, else the first number found in the text.
 */
module NutritionFields {
  import opened Wrappers
  import opened TextUtil

  /**
   * `ast.literal_eval` of a bracketed string followed by `float()` of each
   * element: None when the string is not a literal, and None in an element's
   * place when `float()` raises on that element.
   */
  type ListDecoder = string -> Option<seq<Option<real>>>

  /** The four keys of the returned dictionary. */
  datatype Nutrient = Calories | Protein | Fat | Carbs
  {
    /** The dictionary key as the parser spells it. */
    function Name(): string
    {
      match this
      case Calories => "calories"
      case Protein => "protein"
      case Fat => "fat"
      case Carbs => "carbs"
    }

    /** The list position the key is read from. */
    function Slot(): nat
    {
      match this
      case Calories => 0
      case Protein => 3
      case Fat => 4
      case Carbs => 6
    }
  }

  type Nutrition = map<Nutrient, real>

  predicate IsBracketed(s: string) { StartsWith(s, "[") && EndsWith(s, "]") }

  /** The keys read from positions below `bound`, with the floats there, skipping failed conversions. */
  ghost function ReadBelow(vals: seq<Option<real>>, bound: nat): Nutrition
  {
    map k: Nutrient | k.Slot() < bound && k.Slot() < |vals| && vals[k.Slot()].Some? :: vals[k.Slot()].value
  }

  /** `float()` succeeds on every position below `bound` that the list has. */
  ghost predicate ConvertsBelow(vals: seq<Option<real>>, bound: nat)
  {
    forall k: Nutrient :: k.Slot() < bound && k.Slot() < |vals| ==> vals[k.Slot()].Some?
  }

  /**
   * The list branch: every key whose position exists in the list (all four
   * positions are below 7), with the float at that position; None when
   * `float()` raises on a position that is read.
   */
  ghost function FromList(vals: seq<Option<real>>): Option<Nutrition>
  {
    if ConvertsBelow(vals, 7) then Some(ReadBelow(vals, 7)) else None
  }

  /** Between `lo` and `hi` only `k` is read, so reading up to `hi` is reading up to `lo` and then `k`. */
  lemma ReadStep(vals: seq<Option<real>>, k: Nutrient, lo: nat, hi: nat)
    requires lo <= k.Slot() < hi
    requires forall j: Nutrient :: j != k ==> j.Slot() < lo || hi <= j.Slot()
    ensures ConvertsBelow(vals, hi) <==> ConvertsBelow(vals, lo) && (k.Slot() < |vals| ==> vals[k.Slot()].Some?)
    ensures ReadBelow(vals, hi) == if k.Slot() < |vals| && vals[k.Slot()].Some? then ReadBelow(vals, lo)[k := vals[k.Slot()].value] else ReadBelow(vals, lo)
  {
  }

  /** The body of the `try` on a decoded list: successive conditional inserts, abandoned when a `float()` raises. */
  method MapFromList(vals: seq<Option<real>>) returns (r: Option<Nutrition>)
    ensures r == FromList(vals)
  {
    var mapping: Nutrition := map[];
    var ok := true;
    assert ReadBelow(vals, 0) == map[];
    if |vals| >= 1 {
      if vals[0].Some? { mapping := mapping[Calories := vals[0].value]; } else { ok := false; }
    }
    ReadStep(vals, Calories, 0, 1);
    assert ok <==> ConvertsBelow(vals, 1);
    assert ok ==> mapping == ReadBelow(vals, 1);
    if ok && |vals| >= 4 {
      if vals[3].Some? { mapping := mapping[Protein := vals[3].value]; } else { ok := false; }
    }
    ReadStep(vals, Protein, 1, 4);
    assert ok <==> ConvertsBelow(vals, 4);
    assert ok ==> mapping == ReadBelow(vals, 4);
    if ok && |vals| >= 5 {
      if vals[4].Some? { mapping := mapping[Fat := vals[4].value]; } else { ok := false; }
    }
    ReadStep(vals, Fat, 4, 5);
    assert ok <==> ConvertsBelow(vals, 5);
    assert ok ==> mapping == ReadBelow(vals, 5);
    if ok && |vals| >= 7 {
      if vals[6].Some? { mapping := mapping[Carbs := vals[6].value]; } else { ok := false; }
    }
    ReadStep(vals, Carbs, 5, 7);
    if ok {
      r := Some(mapping);
    } else {
      r := None;
    }
  }

  /** The fallback branch: the first number of the text, under `calories` alone. */
  function FirstNumberAsCalories(s: string): (r: Option<Nutrition>)
    ensures r.Some? ==> r.value.Keys == {Calories}
  {
    match FirstNumber(s)
    case Some(v) => Some(map[Calories := v])
    case None => None
  }

  /** What `parse_nutrition_field` returns for a missing value or for the text `str()` gives of it. */
  ghost function NutritionOf(raw: Option<string>, decode: ListDecoder): Option<Nutrition>
  {
    match raw
    case None => None
    case Some(x) =>
      var s := Strip(x);
      var listed := if IsBracketed(s) && decode(s).Some? then FromList(decode(s).value) else None;
      if listed.Some? then listed else FirstNumberAsCalories(s)
  }

  /**
   * The parser itself: the list branch fills the mapping one key after the
   * other and abandons it when a `float()` raises; the fallback then scans the text.
   */
  method ParseNutritionField(raw: Option<string>, decode: ListDecoder) returns (r: Option<Nutrition>)
    ensures r == NutritionOf(raw, decode)
  {
    if raw.None? {
      return None;
    }
    var s := Strip(raw.value);
    if IsBracketed(s) && decode(s).Some? {
      var mapping := MapFromList(decode(s).value);
      if mapping.Some? {
        return mapping;
      }
    }
    r := FirstNumberAsCalories(s);
  }

  // ---------------------------------------------------------------------------
  // Properties

  /** A missing value parses to None. */
  lemma MissingIsNone(decode: ListDecoder)
    ensures NutritionOf(None, decode) == None
  {
  }

  /**
   * A bracketed list whose read positions all convert: each key is present
   * exactly when the list reaches its position, with the value found there.
   */
  lemma {:induction false} ListKeysPresentIff(x: string, decode: ListDecoder, vals: seq<Option<real>>)
    requires IsBracketed(Strip(x)) && decode(Strip(x)) == Some(vals)
    requires forall k: Nutrient :: k.Slot() < |vals| ==> vals[k.Slot()].Some?
    ensures NutritionOf(Some(x), decode).Some?
    ensures forall k: Nutrient :: (k in NutritionOf(Some(x), decode).value <==> k.Slot() < |vals|)
    ensures forall k: Nutrient :: k.Slot() < |vals| ==> NutritionOf(Some(x), decode).value[k] == vals[k.Slot()].value
  {
  }

  /** When `float()` raises on a read position, the partial mapping is dropped and the text is scanned instead. */
  lemma FailedConversionFallsBack(x: string, decode: ListDecoder, vals: seq<Option<real>>, k: Nutrient)
    requires IsBracketed(Strip(x)) && decode(Strip(x)) == Some(vals)
    requires k.Slot() < |vals| && vals[k.Slot()].None?
    ensures NutritionOf(Some(x), decode) == FirstNumberAsCalories(Strip(x))
  {
  }

  /** The keys of any result are nested: carbs, then fat, then protein, then calories. */
  lemma {:induction false} KeysNested(raw: Option<string>, decode: ListDecoder)
    ensures NutritionOf(raw, decode).Some? ==>
              var m := NutritionOf(raw, decode).value;
              && (Carbs in m ==> Fat in m)
              && (Fat in m ==> Protein in m)
              && (Protein in m ==> Calories in m)
  {
    if raw.Some? {
      var s := Strip(raw.value);
      if IsBracketed(s) && decode(s).Some? && FromList(decode(s).value).Some? {
        var vals := decode(s).value;
        var m := FromList(vals).value;
        assert forall k: Nutrient :: k in m <==> k.Slot() < |vals|;
      }
    }
  }

  /** The empty list gives the empty mapping, not None. */
  lemma EmptyListIsEmptyMap(x: string, decode: ListDecoder)
    requires IsBracketed(Strip(x)) && decode(Strip(x)) == Some([])
    ensures NutritionOf(Some(x), decode) == Some(map[])
  {
  }

  /** The seven-element list of the usual layout gives all four keys. */
  lemma SevenElementList(decode: ListDecoder)
    requires decode("[51.5,0,0,3.2,1.1,0,10.0]") == Some([Some(51.5), Some(0.0), Some(0.0), Some(3.2), Some(1.1), Some(0.0), Some(10.0)])
    ensures NutritionOf(Some("[51.5,0,0,3.2,1.1,0,10.0]"), decode)
            == Some(map[Calories := 51.5, Protein := 3.2, Fat := 1.1, Carbs := 10.0])
  {
    var s := "[51.5,0,0,3.2,1.1,0,10.0]";
    StripUnchanged(s);
    assert IsBracketed(s);
    SevenValues([Some(51.5), Some(0.0), Some(0.0), Some(3.2), Some(1.1), Some(0.0), Some(10.0)]);
  }

  lemma SevenValues(vals: seq<Option<real>>)
    requires vals == [Some(51.5), Some(0.0), Some(0.0), Some(3.2), Some(1.1), Some(0.0), Some(10.0)]
    ensures FromList(vals) == Some(map[Calories := 51.5, Protein := 3.2, Fat := 1.1, Carbs := 10.0])
  {
    var m := ReadBelow(vals, 7);
    var want := map[Calories := 51.5, Protein := 3.2, Fat := 1.1, Carbs := 10.0];
    assert Calories in m && Protein in m && Fat in m && Carbs in m;
    assert m.Keys == want.Keys;
    assert m[Calories] == 51.5 && m[Protein] == 3.2 && m[Fat] == 1.1 && m[Carbs] == 10.0;
    assert m == want;
  }

  /**
   * Outside the list branch the result is the leftmost number of the text under
   * `calories`, and None exactly when the text holds no number.
   */
  lemma FallbackIsLeftmostNumber(x: string, decode: ListDecoder)
    requires !IsBracketed(Strip(x)) || decode(Strip(x)).None?
    ensures var s := Strip(x);
            NutritionOf(Some(x), decode).None? <==> forall k :: 0 <= k < |s| ==> NumberAt(s[k..]).None?
    ensures var s := Strip(x);
            NutritionOf(Some(x), decode).Some? ==>
              exists k :: 0 <= k < |s| && NumberAt(s[k..]).Some?
                && NutritionOf(Some(x), decode).value == map[Calories := NumberAt(s[k..]).value.value]
                && forall j :: 0 <= j < k ==> NumberAt(s[j..]).None?
  {
  }

  /** The empty string holds no number and parses to None. */
  lemma EmptyTextIsNone(decode: ListDecoder)
    ensures NutritionOf(Some(""), decode) == None
  {
    assert Strip("") == "";
  }

  // ---------------------------------------------------------------------------
  // The worked fallback example

  /** Text with no digit, dot or sign adds nothing in front of the first number. */
  lemma {:induction false} FirstNumberAfterWords(p: string, q: string)
    requires forall i :: 0 <= i < |p| ==> !IsDigit(p[i]) && p[i] != '.' && p[i] != '-' && p[i] != '+'
    ensures FirstNumber(p + q) == FirstNumber(q)
  {
    if p != [] {
      assert (p + q)[0] == p[0];
      assert NumberAt(p + q).None?;
      assert (p + q)[1..] == p[1..] + q;
      FirstNumberAfterWords(p[1..], q);
    } else {
      assert p + q == q;
    }
  }

  lemma FortyTwoFirst(q: string)
    requires q == "42 calories"
    ensures FirstNumber(q) == Some(42.0)
  {
    assert DigitRun(q) == 2 by {
      assert q[1..][1..] == q[2..];
      assert DigitRun(q[2..]) == 0;
      assert DigitRun(q[1..]) == 1;
    }
    assert q[..2] == "42";
    assert DigitsValue(q[..2]) == 42 by {
      assert q[..2][..1] == "4";
      assert DigitsValue("4") == 4;
    }
  }

  lemma FortyTwoCaloriesText(s: string)
    requires s == "not a list but 42 calories"
    ensures FirstNumber(s) == Some(42.0)
  {
    var p, q := s[..15], s[15..];
    assert p == "not a list but " && q == "42 calories";
    assert s == p + q;
    FirstNumberAfterWords(p, q);
    FortyTwoFirst(q);
  }

  /** Text that is not a list contributes only its first number, as calories. */
  lemma FortyTwoCalories(decode: ListDecoder)
    ensures NutritionOf(Some("not a list but 42 calories"), decode) == Some(map[Calories := 42.0])
  {
    var s := "not a list but 42 calories";
    StripUnchanged(s);
    assert !IsBracketed(s);
    FortyTwoCaloriesText(s);
  }
}
