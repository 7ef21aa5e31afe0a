# Chefbot recipe recommender — a verified Dafny model

Chefbot recommends recipes for a list of ingredients. This project models the
deterministic core of that recommender in Dafny and proves properties of it:

- **Ingredient cleaning** (`clean_ingredient_text`). The input is split on `,`
  `;` and newlines, or read as a list literal when it starts with `[`. Each item
  is lower-cased and loses its quantities: a digit or slash run, an optional
  decimal part and an optional unit word, with the unit alternatives tried in
  source order and no word boundary. Non-letters become spaces, whitespace is
  collapsed, empty items are dropped, and the survivors are joined with single
  spaces. This is `Preprocessing`, built on the string library `TextUtil`.
- **The nutrition field parser** (`parse_nutrition_field`, module
  `NutritionFields`). A bracketed list is read by fixed positions: 0 is
  calories, 3 protein, 4 fat and 6 carbs. Otherwise the parser falls back to the
  first number in the text, taken as calories.
- **The `ChefRecommender` class** (`Recommender`, with `Tables`, `Schema`,
  `Fitting` and `Scoring`). It is a class with the fields `df`, `tfidf`,
  `vectors` and `fitted`.
  - `load_data` renames common columns to canonical names.
  - `fit` finds the ingredient column: by name first, then by comma density,
    then an error. It cleans that column, fills the optional text columns with
    their fallbacks, builds `search_text` and fits the vectoriser. The primary
    configuration is tried first, then the backup one.
  - `recommend` applies the filters and the ingredient-overlap ratio, blends the
    final score, sorts, cuts at `top_k` and projects the record columns. When
    no row passes the filters it raises: `apply` on the empty frame returns a
    frame rather than a column, and storing that as `ing_overlap` fails. The
    model returns an error there, not an empty list. This is the behaviour of
    pandas 2.x, whose empty-frame `apply(..., axis=1)` probes the function on
    a series indexed by the columns and holding NaN; NaN is truthy, so
    `overlap_score` fails on `.split` and the probe result is discarded.
- **The request handlers' re-ranking logic** (`Rerank`, from `app.py`):
  - parsing of the `max_time`, `is_veg` and `tolerance` request fields;
  - the text each candidate is predicted from;
  - the fallback prediction source;
  - `compute_distance`;
  - the stable sort by distance;
  - the tolerance selection.

Tables are modelled as named columns of cells (`Missing | Str | Num | Flag`).
Reals stand in for floats. Several machine-learning steps are parameters:

- whether the TF-IDF vectoriser can fit a document list, a predicate on the
  configuration and the documents;
- the cosine similarities, a sequence of reals, one per row;
- `ast.literal_eval`, a partial function from strings;
- the nutrition model, a partial function from candidate texts to a matrix of
  predictions.

`compute_distance` divides each absolute difference by the target value
itself. The distance is therefore non-negative for non-negative targets
(`Rerank.DistanceNonNegative`), and a negative target gives a negative
distance (`Rerank.NegativeTargetDistance`).

## Model

| member | source | states |
|---|---|---|
| TextUtil.Lower | chefbot/preprocessing.py:16 | `str.lower` on ASCII: same length, each upper-case letter mapped to its lower-case letter, everything else kept |
| TextUtil.LowerOfLowerIsSame | chefbot/preprocessing.py:16 | lower-casing a string with no upper-case letter leaves it unchanged |
| TextUtil.Strip | chefbot/preprocessing.py:19 | `str.strip`: the input minus its leading and trailing whitespace; the result neither starts nor ends with whitespace |
| TextUtil.StripEmptyIff | chefbot/preprocessing.py:10 | a string strips to the empty string exactly when it is all whitespace |
| TextUtil.StripUnchanged | chefbot/preprocessing.py:19 | a string without whitespace at either end is its own strip |
| TextUtil.Words | chefbot/model.py:174-175 | `str.split()`: every word is non-empty and holds no whitespace |
| TextUtil.WordsEmpty | chefbot/model.py:174-175 | a text has no words exactly when it is all whitespace |
| TextUtil.WordsOfWord | chefbot/model.py:174-175 | a non-empty text without whitespace is one word, itself |
| TextUtil.WordsAppend | chefbot/model.py:174-175 | splitting at a whitespace character gives the words of the left side followed by those of the right; with the two cases above this makes the words the maximal non-whitespace runs, in order |
| TextUtil.WordsConcat | chefbot/model.py:174-175 | the words of a text followed by text starting with whitespace are the words of each part, in order |
| TextUtil.NumberAt | chefbot/nutrition_utils.py:34 | the match of `[-+]?\d*\.?\d+` at the start of a string: after a leading `-` or `+` it exists exactly when an unsigned match follows the sign, is one longer than it and carries its value negated for `-`; without a sign it is the unsigned match |
| TextUtil.UnsignedAt | chefbot/nutrition_utils.py:34 | an unsigned match exists exactly when the text starts with a digit or with a dot followed by a digit; its value is non-negative |
| TextUtil.FirstNumber | chefbot/nutrition_utils.py:34-37 | the leftmost number in the text: found exactly when some position starts a match, with that match's value |
| TextUtil.ParseDecimal | app.py:269 | `float()` of a string succeeds exactly when the stripped string is entirely one decimal number, and then gives that number's signed value |
| Preprocessing.PieceLen | chefbot/preprocessing.py:10 | the length of the first piece: no delimiter inside, and a delimiter right after it unless the text ends |
| Preprocessing.SplitPieces | chefbot/preprocessing.py:10 | `re.split('[,;\n]')`: at least one piece, and no piece contains a delimiter |
| Preprocessing.SplitPiecesAppend | chefbot/preprocessing.py:10 | splitting `a + d + b` at a delimiter `d` gives the pieces of `a` followed by the pieces of `b` |
| Preprocessing.PieceLenOfPrefix | chefbot/preprocessing.py:10 | a delimiter after `a` ends the first piece exactly where `a`'s own first piece ends |
| Preprocessing.StrippedNonBlank | chefbot/preprocessing.py:10 | the stripped pieces with every blank piece dropped: no result is empty |
| Preprocessing.StrippedNonBlankAppend | chefbot/preprocessing.py:10 | the comprehension of a concatenation is the concatenation of the comprehensions, so the order of the pieces is kept |
| Preprocessing.ItemsOf | chefbot/preprocessing.py:4-12 | the items: the literal's list for a `[`-text that parses, the text itself as one item when it does not, the stripped non-blank pieces of any other text, and the collection itself otherwise |
| Preprocessing.UnitFrom | chefbot/preprocessing.py:17 | the unit group's match never runs past the text |
| Preprocessing.UnitFromFirst | chefbot/preprocessing.py:17 | the unit group takes the first alternative, in the order listed, that prefixes the text, and matches nothing exactly when no alternative does |
| Preprocessing.QuantityRun | chefbot/preprocessing.py:17 | the longest run of digits and slashes at the start of the text |
| Preprocessing.NumberEnd | chefbot/preprocessing.py:17 | the number part `[\d/]+(\.\d+)?` ends at or after the digit-and-slash run and within the text |
| Preprocessing.UnitStart | chefbot/preprocessing.py:17 | the unit group is tried at or after the end of the number and within the text |
| Preprocessing.MatchLen | chefbot/preprocessing.py:17 | the quantity match covers at least the digit-and-slash run and stays within the text |
| Preprocessing.QuantityLen | chefbot/preprocessing.py:17 | the quantity match with the cleaner's own unit group covers at least the digit-and-slash run and stays within the text |
| Preprocessing.PartsOfMatch | chefbot/preprocessing.py:17 | the number and the whitespace after it are matched greedily: the longest digit-and-slash run, a dot and the longest digit run only when a digit follows the dot, then the longest whitespace run |
| Preprocessing.MatchLenMatches | chefbot/preprocessing.py:17 | the computed length is the match of the whole pattern: the greedy parts above, then the first listed unit alternative that prefixes the rest, or none |
| Preprocessing.QuantityLenMatches | chefbot/preprocessing.py:17 | the quantity the cleaner removes is that greedy match, with the unit group in its source order |
| Preprocessing.StripQuantities | chefbot/preprocessing.py:17 | after the quantity substitution no digit or slash is left, and the text is no longer |
| Preprocessing.StripQuantitiesUnchanged | chefbot/preprocessing.py:17 | text without digits or slashes is left as it is |
| Preprocessing.CollapseSpacesShape | chefbot/preprocessing.py:19 | collapsing whitespace keeps emptiness and the first character's kind; every whitespace becomes one space; no two whitespace characters stay adjacent |
| Preprocessing.CollapseSpacesUnchanged | chefbot/preprocessing.py:19 | lower-case letters and single spaces are left as they are |
| Preprocessing.LettersAndSpaces | chefbot/preprocessing.py:18 | `[^a-z\s]` to a space: lower-case letters and whitespace are kept, every other character becomes a space |
| Preprocessing.CollapseSpaces | chefbot/preprocessing.py:19 | `\s+` to a single space: each run of whitespace becomes one space, other characters are kept |
| Preprocessing.CleanItem | chefbot/preprocessing.py:16-19 | one item lower-cased, put through the three substitutions in source order and stripped |
| Preprocessing.CleanItemCanonical | chefbot/preprocessing.py:16-19 | every cleaned item holds only `a`–`z` and single spaces, with no space at either end |
| Preprocessing.StripKeepsNoDoubleSpace | chefbot/preprocessing.py:19 | stripping collapsed letters-and-spaces text gives canonical text |
| Preprocessing.Kept | chefbot/preprocessing.py:20-21 | an item contributes at most one entry, and never an empty one |
| Preprocessing.Survivors | chefbot/preprocessing.py:14-21 | the `cleaned` list: no entry is empty |
| Preprocessing.SurvivorsCons | chefbot/preprocessing.py:14-21 | the first item contributes its cleaned form, if any, ahead of the rest |
| Preprocessing.SurvivorsAppend | chefbot/preprocessing.py:14-21 | the survivors of a concatenation are the survivors of each part, in order |
| Preprocessing.SurvivorsCanonical | chefbot/preprocessing.py:14-21 | every survivor is canonical |
| Preprocessing.SurvivorsStep | chefbot/preprocessing.py:14-21 | one loop iteration appends the item's cleaned form exactly when it is not empty |
| Preprocessing.ConcatCanonical | chefbot/preprocessing.py:22 | two non-empty canonical strings joined by one space are canonical |
| Preprocessing.JoinCanonical | chefbot/preprocessing.py:22 | joining non-empty canonical items with spaces gives canonical text, non-empty when there are items |
| Preprocessing.JoinAppend | chefbot/preprocessing.py:22 | joining a concatenation is joining the two joins with one space between them, when both are non-empty |
| Preprocessing.JoinNonEmpty | chefbot/preprocessing.py:22 | joining at least one non-empty item gives non-empty text |
| Preprocessing.CleanIngredients | chefbot/preprocessing.py:3-22 | the output holds only `a`–`z` and single spaces, has no space at either end and no digit |
| Preprocessing.CleanIngredientText | chefbot/preprocessing.py:3-22 | the loop over the items returns exactly the cleaned, joined survivors, so the properties above hold for it |
| Preprocessing.MalformedListIsOneItem | chefbot/preprocessing.py:4-8 | a `[`-prefixed string that does not parse as a literal is cleaned as one single item |
| Preprocessing.SplitAtDelimiter | chefbot/preprocessing.py:9-22 | cleaning `a`, a delimiter and `b` gives the cleaned `a` and the cleaned `b`, in order, joined by a space where both are non-empty |
| Preprocessing.CleanItemFixed | chefbot/preprocessing.py:16-19 | cleaning a canonical item returns it unchanged |
| Preprocessing.CanonicalIsFixed | chefbot/preprocessing.py:9-22 | cleaning canonical text returns it unchanged |
| Preprocessing.CleanIsIdempotent | chefbot/preprocessing.py:3-22 | cleaning the cleaned output again returns it unchanged |
| Preprocessing.OneItem | chefbot/preprocessing.py:9-10 | a text without a delimiter is one item: empty when blank, else its stripped form cleaned |
| Preprocessing.StripStartsAt | chefbot/preprocessing.py:19 | the strip of a text starts at its first non-whitespace character |
| Preprocessing.StripSpaceWord | chefbot/preprocessing.py:19 | a leading space before a word is stripped away |
| Preprocessing.CleanAfterQuantity | chefbot/preprocessing.py:16-19 | an item that starts with a quantity is cleaned to the strip of what follows the quantity |
| Preprocessing.SpaceWordShape | chefbot/preprocessing.py:18-19 | a space followed by lower-case letters is letters-and-spaces text without double spaces |
| Preprocessing.QuantityThenWord | chefbot/preprocessing.py:16-19 | a quantity, one space and a lower-case word is cleaned to the word |
| Preprocessing.QuantityThenText | chefbot/preprocessing.py:16-19 | an item whose quantity match runs straight into canonical text cleans to that text |
| Preprocessing.CupsUnit | chefbot/preprocessing.py:17 | in `cups flour` the unit match is `cups` |
| Preprocessing.CupsFlourQuantity | chefbot/preprocessing.py:17 | in `2 cups flour` the quantity match covers `2 cups` |
| Preprocessing.CupsFlour | chefbot/preprocessing.py:16-19 | `2 cups flour` cleans to `flour` |
| Preprocessing.TspUnit | chefbot/preprocessing.py:17 | in `tsp salt` the unit match is `tsp` |
| Preprocessing.TspSaltQuantity | chefbot/preprocessing.py:17 | in `1 tsp salt` the quantity match covers `1 tsp` |
| Preprocessing.TspSalt | chefbot/preprocessing.py:16-19 | `1 tsp salt` cleans to `salt` |
| Preprocessing.LargeUnit | chefbot/preprocessing.py:17 | in `large eggs` the unit match is `l`, since no earlier alternative prefixes it |
| Preprocessing.LargeEggsQuantity | chefbot/preprocessing.py:17 | in `2 large eggs` the quantity match covers `2 l` |
| Preprocessing.LargeEggs | chefbot/preprocessing.py:16-19 | with no word boundary after the unit, `2 large eggs` cleans to `arge eggs` |
| Preprocessing.GarlicUnit | chefbot/preprocessing.py:17 | in `garlic` the unit match is `g`: `grams` and `gram` fail on the second letter |
| Preprocessing.GarlicQuantity | chefbot/preprocessing.py:17 | in `2 garlic` the quantity match covers `2 g` |
| Preprocessing.Garlic | chefbot/preprocessing.py:16-19 | `2 garlic` cleans to `arlic` |
| Preprocessing.SlicesUnit | chefbot/preprocessing.py:17 | in `slices bread` the unit match is `slice`, listed before `slices` |
| Preprocessing.SlicesBreadQuantity | chefbot/preprocessing.py:17 | in `2 slices bread` the quantity match covers `2 slice` |
| Preprocessing.SlicesBread | chefbot/preprocessing.py:16-19 | `2 slices bread` cleans to `s bread` |
| Preprocessing.CupsFlourText | chefbot/preprocessing.py:3-22 | the text `2 cups flour` cleans to `flour` |
| Preprocessing.TspSaltText | chefbot/preprocessing.py:3-22 | the text ` 1 tsp salt` cleans to `salt` |
| Preprocessing.GlueFlourSalt | chefbot/preprocessing.py:22 | joining `flour` and `salt` gives `flour salt` |
| Preprocessing.CupsFlourTspSalt | chefbot/preprocessing.py:3-22 | `2 cups flour, 1 tsp salt` cleans to `flour salt` |
| NutritionFields.ReadStep | chefbot/nutrition_utils.py:20-28 | one conditional insert: the key is added, with its list value, exactly when the list reaches its position, and the conversion fails exactly when that value fails |
| NutritionFields.FromList | chefbot/nutrition_utils.py:18-29 | the list branch: every key whose position the list reaches, with the float there, or nothing when a read `float()` raises |
| NutritionFields.MapFromList | chefbot/nutrition_utils.py:18-29 | the successive inserts build the positional mapping, or fail when a converted value fails |
| NutritionFields.FirstNumberAsCalories | chefbot/nutrition_utils.py:34-40 | the fallback result, when there is one, has the calories key only |
| NutritionFields.NutritionOf | chefbot/nutrition_utils.py:11-40 | None for a missing value; for a stripped text that is bracketed and decodes, the list branch's mapping unless a conversion fails; otherwise the first-number fallback |
| NutritionFields.ParseNutritionField | chefbot/nutrition_utils.py:5-40 | the parser returns the specified outcome: none for a missing value, the positional map for a decodable bracketed list, else the first-number fallback |
| NutritionFields.MissingIsNone | chefbot/nutrition_utils.py:11-12 | a missing value gives None |
| NutritionFields.ListKeysPresentIff | chefbot/nutrition_utils.py:16-29 | for a bracketed list whose values convert, a key is present exactly when the list reaches its position (0, 3, 4, 6), with that position's value; other positions are ignored |
| NutritionFields.FailedConversionFallsBack | chefbot/nutrition_utils.py:15-31 | when `float()` fails on a used position, the exception leads to the first-number fallback |
| NutritionFields.KeysNested | chefbot/nutrition_utils.py:20-28 | carbs implies fat, fat implies protein, protein implies calories |
| NutritionFields.EmptyListIsEmptyMap | chefbot/nutrition_utils.py:16-29 | `[]` gives an empty mapping, not None |
| NutritionFields.SevenValues | chefbot/nutrition_utils.py:18-29 | the values of `[51.5,0,0,3.2,1.1,0,10.0]` map to calories 51.5, protein 3.2, fat 1.1 and carbs 10.0 |
| NutritionFields.SevenElementList | chefbot/nutrition_utils.py:16-29 | `[51.5,0,0,3.2,1.1,0,10.0]` gives all four keys with those values |
| NutritionFields.FallbackIsLeftmostNumber | chefbot/nutrition_utils.py:33-40 | outside the list branch, the result is calories set to the leftmost number, or None when there is none |
| NutritionFields.EmptyTextIsNone | chefbot/nutrition_utils.py:34-40 | `""` gives None |
| NutritionFields.FirstNumberAfterWords | chefbot/nutrition_utils.py:34 | text without digits, dots or signs before a number does not change the first number |
| NutritionFields.FortyTwoFirst | chefbot/nutrition_utils.py:34 | the first number of `42 calories` is 42 |
| NutritionFields.FortyTwoCaloriesText | chefbot/nutrition_utils.py:34 | the first number of `not a list but 42 calories` is 42 |
| NutritionFields.FortyTwoCalories | chefbot/nutrition_utils.py:33-37 | `not a list but 42 calories` gives calories 42 and no other key |
| Tables.Render | chefbot/model.py:97 | `astype(str)` of a string cell is the string itself |
| Tables.ColumnIndex | chefbot/model.py:103 | the position of the first column with the name; none exactly when the name is absent |
| Tables.Column | chefbot/model.py:97 | a column read has one cell per row |
| Tables.SetColumn | chefbot/model.py:100 | assigning a column keeps the table well formed: the name is present with the new cells, the column names are the old ones plus this one, and every other column is unchanged |
| Tables.ColumnIndexAppend | chefbot/model.py:106 | adding a new last column leaves the lookup of the other names unchanged |
| Tables.AsStrings | chefbot/model.py:97 | `astype(str)`: one string cell per cell, holding its string form |
| Schema.LastFiring | chefbot/model.py:37-52 | the index of the last rule that fires on a column name; none exactly when no rule fires |
| Schema.RuleFor | chefbot/model.py:37-52 | the canonical name a column gets: the target of the last rule that fires on its lower-case name |
| Schema.ColumnMap | chefbot/model.py:34-52 | the rename map: exactly the columns some rule fires on, each with its canonical name |
| Schema.ApplyRules | chefbot/model.py:36-52 | the rule checks for one column leave the column mapped to the last firing rule's target, or the map unchanged |
| Schema.BuildColumnMap | chefbot/model.py:34-52 | the loop over the columns builds exactly the rename map |
| Schema.PrefixMapStep | chefbot/model.py:35-52 | one more column adds at most its own entry to the map |
| Schema.Renamed | chefbot/model.py:54-55 | `rename`: every mapped name is replaced, and the others are kept |
| Schema.NeverOntoExisting | chefbot/model.py:37-52 | no column is renamed to a canonical name that is already a column |
| Schema.AuthorNeverTitle | chefbot/model.py:39-42 | a column whose lower-case name contains `author` is never mapped to `title` |
| Schema.LastRuleWins | chefbot/model.py:37-52 | when several rules fire, the target of the last one in source order wins |
| Schema.VegWins | chefbot/model.py:51-52 | a column mentioning `veg` becomes `is_veg` whatever earlier rules it matched |
| Schema.Sample | chefbot/model.py:82 | `dropna().astype(str).head(200)`: at most the requested number of strings |
| Schema.CommaCount | chefbot/model.py:87 | the number of sampled strings with a comma is at most the sample size |
| Schema.FirstIngredientNamed | chefbot/model.py:72-76 | the first column whose lower-case name contains `ingredient`, or none when no column does |
| Schema.FirstCommaHeavy | chefbot/model.py:79-90 | the first column with more than 20% commas among its first 200 present values, or none |
| Schema.IsIngredientColumn | chefbot/model.py:72-94 | the column `fit` uses: the first column whose name mentions `ingredient` if any does, else the first comma-heavy column, provided its name is not empty |
| Schema.IngredientColumn | chefbot/model.py:72-94 | the ingredient column by name first, then by comma density; none, leading to the error, when neither finds one or the found column's name is empty |
| Schema.IngredientColumnUnique | chefbot/model.py:72-92 | the detection picks at most one column |
| Fitting.Loaded | chefbot/model.py:54-57 | the loaded table keeps its rows and columns, with the names renamed |
| Fitting.Blank | chefbot/model.py:106 | a column assigned `''` holds one empty string per row |
| Fitting.CleanColumn | chefbot/model.py:100 | `apply(clean_ingredient_text)` on the column: one cleaned cell per cell, in order |
| Fitting.CleanColumnAt | chefbot/model.py:100 | each cell of `ingredients_clean` is the cleaned text of the ingredient cell beside it |
| Fitting.CleanCells | chefbot/model.py:100 | the loop over the cells produces exactly the cleaned column |
| Fitting.SearchRows | chefbot/model.py:125-130 | one search text per row, row `i` holding that row's concatenated text |
| Fitting.SearchRowsAt | chefbot/model.py:125-130 | row `i` of the search column is that row's concatenated text |
| Fitting.SearchText | chefbot/model.py:125-130 | a row's search text: its cleaned ingredients, instructions, cuisine and title, joined by single spaces |
| Fitting.SearchCells | chefbot/model.py:125-130 | the loop over the rows produces exactly the search column |
| Fitting.CleanStep | chefbot/model.py:96-100 | the ingredient column becomes strings and `ingredients_clean` holds each row's cleaned text |
| Fitting.FillStep | chefbot/model.py:103-122 | an optional column becomes its string form, else the fallback column's, else empty strings |
| Fitting.FillText | chefbot/model.py:103-122 | filling one column gives it the text column (its own strings, else the fallback's, else empty), adds its name if new, and leaves every other column as it was |
| Fitting.SearchStep | chefbot/model.py:124-130 | `search_text` is added, and every earlier column is kept |
| Fitting.PrepareTable | chefbot/model.py:96-130 | preparation yields the specified prepared table: cleaned, filled and with the search text |
| Fitting.Prepared | chefbot/model.py:96-130 | the table `fit` keeps: cleaned, its optional text columns filled in source order, and the search column added; a well-formed table with the same rows |
| Fitting.PreparedHasColumns | chefbot/model.py:96-130 | the prepared table has `ingredients_clean`, `cuisine`, `title`, `instructions` and `search_text`, and keeps every loaded column |
| Fitting.FillTextReads | chefbot/model.py:103-122 | after filling, the column reads as its own text, else the fallback's, else empty; other columns are unaffected |
| Fitting.CleanedReads | chefbot/model.py:96-100 | after cleaning, other columns read as before and `ingredients_clean` holds the cleaned ingredient text |
| Fitting.FillTextKeeps | chefbot/model.py:103-122 | filling one column does not change what another column and its fallback contribute |
| Fitting.FilledSearchText | chefbot/model.py:124-130 | the search text of a filled row is the cleaned text, instructions, cuisine and title, space-separated |
| Fitting.CleanedKeeps | chefbot/model.py:96-100 | cleaning does not change what the text columns contribute |
| Fitting.SearchTextRow | chefbot/model.py:96-130 | each row's `search_text` is its cleaned ingredients, instructions (or steps), cuisine and title (or name), each absent one empty, joined by spaces |
| Scoring.PrepTime | chefbot/model.py:166 | `to_numeric(errors='coerce').fillna(9999)` of a cell: its number, a parsed string, or 9999 for a missing or unparseable value |
| Scoring.EqualsFlag | chefbot/model.py:163 | the `res['is_veg'] == filters['is_veg']` test: only a boolean or numeric cell can equal the flag, and by FlagMatchesOne no cell equals both flags while a boolean cell equals one |
| Scoring.FlagMatchesOne | chefbot/model.py:163 | no cell equals both True and False, and a boolean cell equals one of them |
| Scoring.CuisineMatches | chefbot/model.py:170 | `str.contains(..., case=False, na=False)`: only a string cell can match, and every string cell matches an empty pattern |
| Scoring.CuisineIgnoresCase | chefbot/model.py:170 | `case=False`: lower-casing the pattern or the cell text leaves the match unchanged |
| Scoring.Passes | chefbot/model.py:160-170 | a row passes when it meets the `is_veg`, `max_time` and `cuisine` filters that are given; the `is_veg` and `max_time` filters are skipped when their column is absent, and the cuisine filter reads the `cuisine` column that `fit` always creates |
| Scoring.Overlap | chefbot/model.py:173-178 | `overlap_score` lies in [0, 1] |
| Scoring.Share | chefbot/model.py:176-178 | the share of shared tokens lies in [0, 1] |
| Scoring.ShareExtremes | chefbot/model.py:176-178 | 0 for no recipe tokens or none shared, 1 when all are shared |
| Scoring.OverlapExtremes | chefbot/model.py:176-178 | 0 when the recipe has no tokens or none in common with the query; 1 when every recipe token is in the query |
| Scoring.FinalScore | chefbot/model.py:181 | the blend is 0.6 of the similarity plus 0.4 of the overlap, and stays in [0, 1] when both do |
| Scoring.FinalScoreMonotone | chefbot/model.py:181 | the final score grows with the similarity and with the overlap |
| Scoring.InsertDesc | chefbot/model.py:183 | insertion adds exactly the new element |
| Scoring.InsertDescSorted | chefbot/model.py:183 | inserting into a non-increasing sequence keeps it non-increasing |
| Scoring.SortDesc | chefbot/model.py:183 | `sort_values(ascending=False)` is a non-increasing permutation |
| Scoring.TopCount | chefbot/model.py:183 | `head(k)` keeps `min(k, n)` rows, and `n + k` rows (at least 0) for a negative `k` |
| Scoring.CutKeepsTheBest | chefbot/model.py:183 | after a descending sort, every kept row scores at least what a dropped row scores |
| Scoring.SortedRowsDistinct | chefbot/model.py:183 | sorting candidates from distinct rows keeps the rows distinct |
| Recommender.NoColumnOutcome | chefbot/model.py:92-94 | with no ingredient column, `fit` fails and leaves `tfidf`, `vectors` and `fitted` unchanged |
| Recommender.FitOutcome | chefbot/model.py:92-142 | `fit` on a loaded table: NoIngredientColumn exactly when no column is an ingredient column; success only with a found column, leaving the model fitted with vectors; any error keeps `vectors`, `fitted` and the loaded table |
| Recommender.VectorizeOutcome | chefbot/model.py:130-142 | success exactly when the primary or the backup configuration fits the documents, then `df` is the prepared table and the vectoriser holds its documents; else VectorizerFailed with `df`, `vectors` and `fitted` kept |
| Recommender.ColumnOutcome | chefbot/model.py:96-142 | with an ingredient column, `fit`'s outcome is that of vectorising the table prepared from it |
| Recommender.PassingRows | chefbot/model.py:160-170 | exactly the rows that pass every active filter, in increasing order |
| Recommender.PassingRowsStep | chefbot/model.py:160-170 | one more row extends the passing rows by that row exactly when it passes |
| Recommender.RowScore | chefbot/model.py:173-181 | a row's `final_score`: its similarity blended with the overlap of its cleaned ingredients with the query |
| Recommender.RowScoreBounds | chefbot/model.py:173-181 | a row's final score lies in [0, 1] when its similarity does |
| Recommender.Project | chefbot/model.py:184-185 | a record has exactly the record columns the table has, with the row's cells |
| Recommender.SortedAreCandidates | chefbot/model.py:183 | every sorted candidate is a passing row carrying its own final score |
| Recommender.SortedRowsUnique | chefbot/model.py:183 | no row appears twice after the sort |
| Recommender.CutDominates | chefbot/model.py:183 | a passing row that was cut scores no more than any kept row |
| Recommender.Ranking | chefbot/model.py:156-185 | the records `recommend` promises: `head(top_k)` of the passing rows, each from a distinct passing row with its projection and final score, non-increasing, none beaten by a passing row left out |
| Recommender.ChefRecommender.constructor | chefbot/model.py:15-19 | a new recommender has no table, vectoriser or vectors, and is not fitted |
| Recommender.ChefRecommender.LoadData | chefbot/model.py:21-58 | the error when no CSV is found; otherwise `df` becomes the loaded table with its columns renamed; nothing else changes |
| Recommender.ChefRecommender.Fit | chefbot/model.py:60-142 | the error when nothing loads; otherwise the fit outcome on the loaded table: the ingredient-column error with the fields kept, or the primary then backup vectoriser with `df` the prepared table and `fitted` set, or the vectoriser error |
| Recommender.ChefRecommender.FitLoaded | chefbot/model.py:69-142 | `fit` from a loaded table reaches the specified fit outcome |
| Recommender.ChefRecommender.Vectorize | chefbot/model.py:133-142 | the `try`/`except` fit: primary when it fits, else backup, else the error, with the backup vectoriser left unfitted and `vectors`/`fitted` unchanged |
| Recommender.ChefRecommender.Recommend | chefbot/model.py:145-185 | the error when not fitted; otherwise, with no state change, the error when no row passes the filters, else at most `top_k` records from distinct passing rows, non-increasing in final score, none beaten by a row left out |
| Recommender.Rank | chefbot/model.py:156-185 | the error exactly when no row passes the filters (storing the overlap column of an empty frame raises); otherwise records that meet the ranking specification |
| Recommender.Candidates | chefbot/model.py:160-181 | the error exactly when no row passes the filters; otherwise every passing row, in table order, each with its final score |
| Recommender.ScoresRowsAppend | chefbot/model.py:173-181 | appending a row with its score keeps the candidates aligned with their rows |
| Recommender.Records | chefbot/model.py:183-185 | the first `n` sorted candidates projected, each with its score |
| Recommender.RankingHolds | chefbot/model.py:183-185 | sorting, cutting and projecting the candidates meets the ranking specification |
| Recommender.LeftOutScoresLower | chefbot/model.py:183 | no passing row left out of the cut scores above a returned record |
| Recommender.RankingScoresBounded | chefbot/model.py:181-183 | with similarities in [0, 1], every returned final score lies in [0, 1] |
| Recommender.RecordKeys | chefbot/model.py:184-185 | a record carries only columns from the record list, and every one of them the table has |
| Rerank.StrOf | app.py:267 | `str()` of a request value: a string itself, a number's text, `True` or `False` |
| Rerank.FloatOf | app.py:269 | `float()` of a request value: a parsed string, a number itself, 1.0 or 0.0 for a boolean, nothing where it raises |
| Rerank.VegFlag | app.py:272-276 | a string is vegetarian exactly when its lower-case form is `1`, `true`, `yes` or `y`; a number exactly when non-zero; a boolean as itself |
| Rerank.RequestFilters | app.py:266-276 | `max_time` enters exactly when it is non-blank and parses, with its parsed value; `is_veg` enters exactly when given; there is no cuisine filter |
| Rerank.ParseFilters | app.py:266-276 | the step-by-step dictionary equals the specified filters |
| Rerank.VegWordsAnyCase | app.py:274 | `YES` and `y` read as vegetarian, `no` does not |
| Rerank.BlankMaxTimeIgnored | app.py:267 | a blank `max_time` adds no time filter |
| Rerank.Tolerance | app.py:297-300 | the parsed tolerance, or 0.2 when it is missing or does not parse |
| Rerank.PartText | app.py:329-331 | an absent field gives `""` and a string field gives itself |
| Rerank.CandidateText | app.py:329-332 | defined exactly when the three parts are, as `ingredients + " " + instructions + " " + title` |
| Rerank.Texts | app.py:327-332 | all candidate texts, in candidate order, or the error when one part is not a string |
| Rerank.CandidateTexts | app.py:327-332 | the loop returns exactly the candidate texts |
| Rerank.FallbackNames | app.py:346-348 | exactly those of `calories`, `protein`, `fat`, `carbs` that the first candidate has |
| Rerank.CellNumber | app.py:354-357 | `float(r.get(tn, 0) or 0)` of a record field, 0.0 when the field is absent, falsy or does not convert |
| Rerank.FallbackRows | app.py:350-358 | one row per candidate, with one value per target name |
| Rerank.FallbackPredictions | app.py:350-358 | the nested loops build exactly the fallback rows |
| Rerank.FallbackFindsNothing | app.py:345-348 | a candidate record holding only record columns yields no fallback target names |
| Rerank.Term | app.py:377-381 | the relative error of a prediction against a non-zero target, the absolute error against a zero one |
| Rerank.Terms | app.py:371-383 | at most one term per target name |
| Rerank.ComputeDistance | app.py:368-386 | the accumulating loop returns the mean term over the counted names, or none (infinity) when none counts |
| Rerank.Distance | app.py:368-386 | `compute_distance`: the mean of the counted terms, nothing (infinity) when no name counts |
| Rerank.TermsEmptyIff | app.py:371-383 | there are no terms exactly when no target name is in the target with a parseable value |
| Rerank.DistanceNoneIff | app.py:384-386 | the distance is infinite exactly when no target name counts |
| Rerank.TermsNonNegative | app.py:378-381 | with no negative target value every term is non-negative |
| Rerank.DistanceNonNegative | app.py:368-386 | with no negative target value the distance is non-negative |
| Rerank.NegativeTargetDistance | app.py:378-379 | a calories target of -2 against a prediction of 0 gives the distance -1 |
| Rerank.PredMap | app.py:392 | `nutrition_pred` has exactly the target names as keys |
| Rerank.ScoreAll | app.py:388-394 | one scored entry per candidate |
| Rerank.ScoreCandidates | app.py:388-394 | the loop pairs every candidate with its predictions and distance, in order |
| Rerank.InsertByKey | app.py:396 | insertion adds exactly the new element |
| Rerank.InsertByKeySorted | app.py:396 | inserting into a key-sorted sequence keeps it sorted |
| Rerank.SortByKey | app.py:396 | `sorted` returns a key-sorted permutation |
| Rerank.InsertByKeyStable | app.py:396 | insertion puts the new element before the elements with its key |
| Rerank.SortStable | app.py:396 | the sort is stable: for each key the elements keep their input order |
| Rerank.SameKeysKeepOrder | app.py:396 | when all keys are equal, sorting changes nothing |
| Rerank.KeyOf | app.py:396 | the sort key `(distance is None, distance or 1e9)` |
| Rerank.SortedOrder | app.py:396 | finite distances come before infinite ones and ascend; a distance of exactly 0 sorts as if it were 1e9 |
| Rerank.Within | app.py:399 | exactly the candidates with a finite distance within the tolerance, still in key order when the input was |
| Rerank.Select | app.py:398-402 | the candidates within tolerance when there is a target and some are, else the first 12; either way still sorted by distance key when the input was |
| Rerank.SelectWithinTolerance | app.py:398-400 | with a target and a candidate within tolerance, the result is every candidate within tolerance, with no cap of 12 |
| Rerank.Plain | app.py:361-365 | the first 12 candidates, each with empty predictions and no distance |
| Rerank.PredictionSource | app.py:337-359 | the model's predictions when it gives some, else the fallback names of the first candidate with one full-length row per candidate |
| Rerank.Predict | app.py:334-359 | the model's predictions, or the fallback built from the candidates |
| Rerank.RowsLongEnough | app.py:389-392 | whether every paired prediction row has a value per target name |
| Rerank.Reranked | app.py:323-404 | the handler's answer for the candidates: none where it raises, the plain first 12 without predictions, else the selection from the distance-sorted scored candidates |
| Rerank.RecommendWithNutrition | app.py:323-404 | the handler from the candidates on returns the specified re-ranking |
| Rerank.NoModelMeansPlain | app.py:345-365 | without model predictions, candidates from `recommend` come back as the first 12 with empty predictions and no distance |
| Rerank.EmptyTargetKeepsOrder | app.py:396-402 | with an empty target the result is the first 12 candidates in their original order |

## Left out

- CSV discovery (`os.walk`, `pd.read_csv`) is I/O. `LoadData` receives the found table, or none when there is no CSV.
- TF-IDF fitting and cosine similarity are `sklearn`. Whether a configuration fits a document list is a parameter, and the similarities are an input sequence. `RankingScoresBounded` requires them to lie in [0, 1].
- `ast.literal_eval` is a parameter, partial on its input. Its items are typed as strings, as `.lower()` requires. The list decoder of the nutrition field is a parameter too.
- The nutrition model (`chefbot/nutrition_model.py`) is not part of this model. It is a parameter from candidate texts to a prediction matrix, or to nothing when there is no model or its prediction fails.
- Flask routes, sessions, authentication, SQLite logging, the background fitting thread and pickling are I/O, framework and concurrency. Only the computations inside the handlers are modelled. The handler's not-fitted 503 answer is left out too; `Recommend` returns its own not-fitted error.
- Floats are reals. NaN, infinity and exponent notation are not modelled. `float()` of a string follows the `[-+]?\d*\.?\d+` grammar with surrounding whitespace. An infinite distance is `None`.
- `str.lower` is ASCII lower-casing. Python's whitespace set is listed in `TextUtil.IsSpace`. There is no Unicode case folding.
- Digits are the ASCII `0`–`9`. Python's `\d` on a str and `float()` also accept every other Unicode decimal digit (for example Arabic-Indic digits), so an item such as `٣ cups flour` keeps its quantity in the model, and `٤٢ kcal` yields no calories.
- The cuisine filter's `str.contains` pattern is read as a case-insensitive plain substring, not a regular expression.
- Both pandas sorts use the non-stable default. The score sort and the final-score sort fix no tie order. `Scoring.SortDesc` is one of the orders pandas may produce, and the ranking contract promises only non-increasing final scores, never a tie order. For the same reason the preliminary sort by similarity at chefbot/model.py:158 is not modelled.
- Duplicate column labels are not modelled: a lookup takes the first column with the name, where pandas would return several.
- Recommender.ChefRecommender.LoadData: requires an unfitted recommender and a well-formed table. The source calls it only from `fit` when no table is loaded.
- Recommender.ChefRecommender.Recommend: the `max_time` filter holds a real. The `try`/`except` around a non-numeric `max_time` in the filters dictionary (chefbot/model.py:165-168) therefore cannot arise; the handlers only ever pass floats.
- Recommender.ChefRecommender.Recommend: `df.copy()` is modelled by the method not changing the object at all. It has no `modifies` clause.
- Rerank.CellNumber: a NaN cell (`Missing`) reads as 0.0, not NaN. The fallback finds no target names for records from `recommend` anyway (`FallbackFindsNothing`).
- Recommender.Rank: assumes the pandas 2.x empty-frame `apply`. Under a pandas whose probe passes an index-less empty series, `overlap_score` returns 0.0, the result reduces to an empty column and `recommend` returns `[]`; that behaviour is not modelled.
- Rerank.ReqValue: request values are strings, numbers and booleans only. JSON arrays and objects are not modelled, although the handler treats them definitely: `bool([])` is False, so `is_veg: []` gives an `is_veg=False` filter, and `float()` of a list raises, so a list `max_time` adds no filter and a list `tolerance` gives 0.2. A number's `text` is not tied to its value either, so `RNum(5.0, " ")` reads as a blank `max_time`, which `str()` of a number never is.
- Rerank.PartText: a NaN value is truthy in Python, so the concatenation raises; the model returns the error, as it does for any non-string truthy value. The handler's unhandled exceptions, here and for a prediction row shorter than the target names, are `None` results.
- Rerank.Reranked: a `nutrition_target` that is not a dictionary is not modelled. The target is a map from names to the outcome of `float()` on each value.
- Rerank.DistanceNonNegative: states non-negativity only for non-negative target values, because the division by the target makes the distance negative for a negative target, as `NegativeTargetDistance` shows.
- The nutrient keys form a datatype of four constructors. The "keys are a subset of calories, protein, fat and carbs" property therefore holds by typing, and no lemma states it.
