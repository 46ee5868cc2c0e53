# quantifico server core in Dafny

quantifico is a football-analytics web application. Its Flask back end comes in
two near-identical variants:

- `server/app_postgresql.py`, the database variant, reads a PostgreSQL store;
- `server/app.py`, the spreadsheet variant, reads an Excel sheet through pandas.

Beneath the routes sits the logic modelled here:

- the two value parsers, `get_primary_position` and `convert_value_to_millions`;
- the percentile normaliser, `normalize_value`;
- the radar-chart assembly of `get_radar_data`;
- the parallel-coordinates row transform of `get_parallel_data`;
- the season heatmap aggregation of `get_season_heatmap_data` and the pitch
  rescale of `get_heatmap`;
- the player search of the spreadsheet variant.

Each is modelled for both variants wherever they differ.

Modules:

- `Wrappers`: `Option` and `Result`.
- `Text`: Python `strip`, `lower`, `upper`, `in`, `replace(c, '')`,
  `split(c)[0]`, `split()` and `startswith`, on ASCII.
- `Decimal`: Python `float()` on text, as a decimal grammar returning
  `Option<real>`. The grammar is surrounding whitespace, an optional sign, and
  digits with at most one `.`. `Render` gives the numeral of a whole number.
- `Cells`:
  - a result cell is `Null`, `Num` or `Text`;
  - the spreadsheet's floats are a real number or `NaN`;
  - the exceptions that end a request are error values.
- `Parsers`: position classification, and the money parser in its
  case-insensitive stripping form (`MillionsPg`) and its case-sensitive,
  non-stripping form (`MillionsXl`).
- `Stats`: `min`, `max`, `sum` and the mean of a non-empty list.
- `Percentile`: the linear map to 0–100, the database variant's coercing
  `normalize_value` (0 when coercion fails), and the spreadsheet variant's
  version on floats with NaN.
- `Frames`: the sheet as columns and rows, row lookup by player, the
  midfielder filter, and the non-missing values of a column.
- `Radar`:
  - the metric loop as a fold `Assemble` over an insertion-ordered dict;
  - both routes as functions;
  - the in-place loops as methods proved equal to them.
- `Parallel`: both row transforms (nested loops proved against the
  functions) and both routes.
- `Heatmap`:
  - the team filter;
  - the first-match participant scan, a loop with `break`;
  - the fetch loop with its skip counter;
  - the affine rescale and the route.
- `Search`: the search loop, de-duplication, sort and cut to five.

A Python dict that the source fills in insertion order is a sequence of
`(key, value)` pairs, kept in that order. The data sources are inputs:

- the database variant's query results are given rows, and its team query is
  the function `teamRows`;
- the sheet is a `Frame`;
- the season's matches are a sequence;
- the heatmap scraper is a function from match id to the scraped participants
  or a failure.

Where the two variants differ, the model follows each one's code:

- **Money parser.** The database variant lower-cases and strips; the
  spreadsheet variant does neither, so `€70.00M` is 0.0 there.
- **`normalize_value`.** Only the database variant coerces and falls back to
  0.
- **Radar.** A metric with no league value is skipped only in the database
  variant. The spreadsheet variant reduces to NaN instead.
- **Parallel, `Position`.** The spreadsheet variant always reads it from
  `pos_`. The database variant reads it from the column selected under the
  display name.
- **Parallel, other metrics.** Only the spreadsheet variant coerces them to
  float, and `float(nan)` stays NaN.
- **Parallel, team rows.** The spreadsheet variant first adds a
  `position_category` column holding each row's position code, so a metric
  mapped to that column reads text and becomes 0.0. The database variant's
  team query matches no row for a NULL team, which gives "No data found".

## Model

| member | source | states |
|---|---|---|
| Decimal.ParseFloat | server/app_postgresql.py:107-114 | `float()` on text gives a number only for text that holds a digit and is not all whitespace; otherwise no number (ValueError) |
| Decimal.ParseFloatChars | server/app_postgresql.py:110-114 | a text `float()` accepts contains only numeral characters and whitespace |
| Decimal.ParseFloatOfStripped | server/app_postgresql.py:107 | `float()` already ignores surrounding whitespace, so the database variant's extra `strip()` changes no result |
| Decimal.ParseFloatOfLower | server/app_postgresql.py:109-114 | lower-casing never changes what `float()` reads |
| Decimal.ParseFloatOfRender | server/app_postgresql.py:107 | `float(str(n))` is n for a whole number n |
| Decimal.NumeralFacts | server/app_postgresql.py:107-114 | a parseable numeral is non-empty, has no surrounding whitespace, no letters and no '€' |
| Cells.Coerce | server/app_postgresql.py:92-94 | `float(x)` on a cell: a number is itself, None gives no number (TypeError), and text gives a number only when it holds a digit |
| Parsers.PrimaryPosition | server/app_postgresql.py:402-417 | None, a number or empty text is NA; any other result's code occurs in the first token; no code occurring there ranks before the result (GK, DF, MF, FW) |
| Parsers.Classify | server/app_postgresql.py:409-417 | the result's code occurs in the token, and no code of higher priority (GK > DF > MF > FW) does; `NA` only when none occurs |
| Parsers.ClassifyUnique | server/app_postgresql.py:409-417 | those two clauses determine the classification uniquely |
| Parsers.ClassifyEmpty | server/app_postgresql.py:417 | a token without any code is `NA` |
| Parsers.HeadBeforeComma | server/app_postgresql.py:407 | only the text before the first ',' is examined |
| Parsers.HeadBeforeSlash | server/app_postgresql.py:407 | only the text before the first '/' is examined |
| Parsers.PositionBeforeComma | server/app_postgresql.py:402-417 | the primary position of `a,b` is that of `a` |
| Parsers.PositionBeforeSlash | server/app_postgresql.py:402-417 | the primary position of `a/b` is that of `a` |
| Parsers.FirstTokenOfTwoLetters | server/app_postgresql.py:407 | a two-capital-letter code survives the split, strip and upper-case unchanged |
| Parsers.PositionOfCode | server/app_postgresql.py:402-417 | each code, given on its own, classifies as itself |
| Parsers.PositionExamples | server/app.py:137-153 | `DF,MF` is DF, and a missing or empty value is NA |
| Parsers.PositionSlashExample | server/app.py:142-149 | `FW/MF` is FW |
| Parsers.MillionsPg | server/app_postgresql.py:102-117 | the database money parser never raises: text without a digit is 0.0 (the branch lemmas below give the value on every text) |
| Parsers.PgMillionsBranch | server/app_postgresql.py:107-110 | on any text whose cleaned, lower-cased form holds an 'm' anywhere: the number left after every 'm' is removed, or 0.0 when it does not parse |
| Parsers.PgThousandsBranch | server/app_postgresql.py:107-112 | on any text whose cleaned form holds no 'm' but a 'k' anywhere: the number left after every 'k' is removed, divided by 1000, or 0.0 when it does not parse |
| Parsers.PgUnitsBranch | server/app_postgresql.py:107-117 | on any text whose cleaned form holds neither letter: the stripped number divided by 1,000,000, or 0.0 when it does not parse |
| Parsers.PgMillionsSuffix | server/app_postgresql.py:107-110 | `€<x>m` and `€<x>M` are x |
| Parsers.PgThousandsSuffix | server/app_postgresql.py:107-112 | `€<x>k` and `€<x>K` are x/1000 |
| Parsers.PgBare | server/app_postgresql.py:113-114 | a bare numeral x is x/1,000,000 |
| Parsers.MillionsPgOfNumeral | server/app_postgresql.py:102-117 | the database money parser on a numeral x with each suffix: m or M gives x, k or K gives x/1000, none gives x/1e6 |
| Parsers.MillionsXl | server/app.py:122-135 | the spreadsheet money parser never raises: text without a digit is 0.0 (the branch lemmas below give the value on every text) |
| Parsers.XlSuffixBranch | server/app.py:125-135 | spreadsheet variant, on any text: with a lower-case 'm' anywhere (or a 'k' and no 'm'), the number left after every such letter is removed, divided by 1 ('m') or 1000 ('k'), or 0.0 when it does not parse |
| Parsers.XlSuffix | server/app.py:125-130 | spreadsheet variant: `€<x>m` is x and `€<x>k` is x/1000 |
| Parsers.XlUpperSuffix | server/app.py:125-135 | spreadsheet variant: `€<x>M` and `€<x>K` are 0.0, because the letter is not removed and the number does not parse |
| Parsers.MillionsXlOfNumeral | server/app.py:122-135 | the spreadsheet money parser on a numeral x with each suffix: m gives x, k gives x/1000, none gives x/1e6, M or K gives 0.0 |
| Parsers.XlBare | server/app.py:131-132 | spreadsheet variant: a bare numeral x is x/1,000,000 |
| Parsers.MillionsXlUnparsedLetter | server/app.py:131-135 | an upper-case letter that cannot belong to an exponent, `INF`, `INFINITY` or `NAN`, with no 'm' or 'k', makes the spreadsheet parser fall back to 0.0 |
| Parsers.MillionsPgOfLower | server/app_postgresql.py:109-113 | the database parser ignores letter case |
| Parsers.MillionsVariantsAgree | server/app.py:122-135 | on text with no surrounding whitespace and no upper-case letters, the two money parsers agree |
| Parsers.MillionsPgOfWord | server/app_postgresql.py:113-117 | a word with no 'm' or 'k', other than the spellings of infinity and NaN, does not parse: 0.0, never an exception |
| Parsers.MillionsPgOfNone | server/app_postgresql.py:107-117 | `str(None)` ("None") is 0.0 |
| Parsers.MillionsOfRender | server/app_postgresql.py:107-114 | a whole number's numeral, which has no letter, is read as units: n/1e6 in both variants |
| Parsers.NumeralNineHundred | server/app_postgresql.py:104 | `float("900")` is 900 |
| Parsers.NumeralSeventy | server/app_postgresql.py:104 | `float("70.00")` is 70 |
| Parsers.MillionsThousandsExample | server/app_postgresql.py:104 | the docstring example `€900k` gives 0.9, in both variants |
| Parsers.MillionsMillionsExample | server/app.py:123 | the docstring example `€70.00m` gives 70.0 in both variants; `€70.00M` gives 70.0 in the database variant and 0.0 in the spreadsheet variant |
| Parsers.MillionsWordExample | server/app_postgresql.py:115-117 | arbitrary text is 0.0 |
| Stats.Min | server/app_postgresql.py:221 | `min` is an element of the list and no larger than any element |
| Stats.Max | server/app_postgresql.py:222 | `max` is an element of the list and no smaller than any element |
| Stats.SumBounds | server/app_postgresql.py:223 | a sum of n values in [lo, hi] lies in [n·lo, n·hi] |
| Stats.MeanBounds | server/app_postgresql.py:223 | a mean of values in [lo, hi] lies in [lo, hi] |
| Stats.MeanBetween | server/app_postgresql.py:221-223 | min ≤ mean ≤ max |
| Stats.MeanOfFlat | server/app_postgresql.py:221-223 | when min = max the mean is that value |
| Percentile.Normalize | server/app_postgresql.py:98-100 | max = min gives 50; otherwise the result times (max − min) is (value − min) × 100, the linear map taking min to 0 and max to 100 |
| Percentile.NormalizeDegenerate | server/app_postgresql.py:98-99 | max = min gives 50 whatever the value |
| Percentile.NormalizeMonotone | server/app_postgresql.py:100 | for min < max the map is strictly increasing and injective (both directions) |
| Percentile.NormalizeEndpoints | server/app_postgresql.py:100 | for min < max: 0 at min, 100 at max, strictly inside at values strictly inside, and in [0, 100] exactly for values in [min, max] |
| Percentile.NormalizeInverse | server/app_postgresql.py:100 | for min < max the map is a bijection, inverted by `Denormalize`, both ways |
| Percentile.NormalizeBounded | server/app_postgresql.py:98-100 | a value in [min, max] is mapped into [0, 100] |
| Percentile.NormalizeZero | server/app_postgresql.py:98-100 | on numbers the result is 0 exactly when min ≠ max and value = min |
| Percentile.NormalizePgZero | server/app_postgresql.py:86-100 | the coercing variant is 0 exactly when a coercion fails, or when min ≠ max and the value equals min; under a one-number range it is 50 if the value coerces and 0 if not |
| Percentile.NormalizePg | server/app_postgresql.py:86-100 | 0 when any of the three fails to coerce; otherwise the linear map of the coerced numbers; in [0, 100] when the value lies between the coerced min and max |
| Percentile.NormalizeFloat | server/app.py:113-117 | NaN exactly when a NaN meets a range that is not one number; on numbers the linear map, in [0, 100] for a value between min and max |
| Frames.FirstRowOf | server/app.py:533 | `df[df['player'] == name].iloc[0]`: none exactly when no row has the name; otherwise the first such row |
| Frames.MidfielderRows | server/app.py:532 | the rows kept are exactly those whose `pos_` text contains "MF" (missing cells excluded) |
| Frames.MidfielderRowsAppend | server/app.py:532 | the filter keeps row order: over two runs of rows it gives the two runs' midfielders concatenated |
| Frames.MidfielderRowsOne | server/app.py:532 | one row is kept exactly when its `pos_` text contains "MF" |
| Frames.Midfielders | server/app.py:532 | KeyError('pos_') exactly when the sheet lacks the column; otherwise every row kept is a sheet row whose `pos_` contains "MF", and every such row is kept |
| Frames.ColumnValues | server/app.py:540-542 | the values the pandas reductions see: non-missing, each from some row, every non-missing cell included, empty exactly when every cell is missing |
| Frames.ColumnValuesAppend | server/app.py:540-542 | each row contributes its cell once, in row order: the values over two runs of rows are the two runs' values concatenated |
| Frames.ColumnValuesOne | server/app.py:540-542 | one row contributes its cell when it is not missing, and nothing otherwise |
| Radar.Assemble | server/app_postgresql.py:209-236 | the metric loop as a fold: on success at most one entry per metric; a failure is the error some metric's step raised |
| Radar.AssembleSucceeds | server/app_postgresql.py:209-236 | the loop completes exactly when every metric's step succeeds |
| Radar.AssembleStores | server/app_postgresql.py:230-236 | the stored keys are the kept metrics, and each entry is the value its own metric's step produced |
| Radar.AssembleFailsFirst | server/app_postgresql.py:209-236 | a failure is the error of a metric all of whose predecessors succeeded |
| Radar.AssembleSpec | server/app_postgresql.py:209-236 | the metric loop succeeds exactly when every metric succeeds; its keys are the kept metrics in input order; each entry is its metric's value; a failure is the first failing metric's error |
| Radar.AssemblePrefixFailure | server/app_postgresql.py:209-236 | once a metric has raised, later metrics do not change the outcome |
| Radar.KeptMember | server/app_postgresql.py:216-218 | a metric is among the response's keys exactly when its step keeps it |
| Radar.KeptNames | server/app_postgresql.py:230-235 | every response key is a display name of the metric map |
| Radar.AssembleTotal | server/app.py:539-551 | when no metric is skipped, every display name appears, in order, with its metric's value |
| Radar.LeagueValues | server/app_postgresql.py:214 | the extracted league values contain no None |
| Radar.LeagueValuesSpec | server/app_postgresql.py:214 | KeyError exactly when some league row lacks the column; otherwise every value comes from a row, and the list is empty exactly when the column is None everywhere |
| Radar.MetricPg | server/app_postgresql.py:211-236 | one metric fails only with KeyError for its column or TypeError; a kept metric holds the stats of its column's non-null league values: the player's percentile is `normalize_value` of the player's cell against their minimum and maximum, the league-average percentile that of their mean, and the raw numbers are the cell, the mean and the maximum; that percentile is in [0, 100] and the mean is at most the maximum |
| Radar.RadarPg | server/app_postgresql.py:193-248 | a missing player is "Player not found"; any other failure is TypeError or KeyError for a metric's column; on success `metrics` lists every display name and the three dicts share their keys, at most one per metric |
| Radar.RadarDataPg | server/app_postgresql.py:193-244 | the in-place loop's response is the functional `RadarPg` (player not found, then the fold) |
| Radar.MetricPgBounds | server/app_postgresql.py:220-234 | a kept metric's average percentile is in [0, 100], its raw mean ≤ raw max, the raw max bounds every league value, and the raw player value is the fetched cell |
| Radar.LeagueValuesIn | server/app_postgresql.py:214 | every non-null league value is among the extracted values |
| Radar.MetricPgOutcome | server/app_postgresql.py:214-223 | one metric raises exactly when a row lacks the column or text is among its values; it is skipped exactly when no row has a value |
| Radar.RadarPgKeys | server/app_postgresql.py:209-243 | `metrics` lists every display name in input order; the three dicts have the same keys, in input order; a metric is present exactly when some league row holds a value for it |
| Radar.RadarPgAveragesBounded | server/app_postgresql.py:221-234 | every league-average percentile is in [0, 100], and every raw league mean is at most the raw maximum |
| Radar.RadarPgEntries | server/app_postgresql.py:209-243 | entry i of the three dicts comes from a metric with the same display name and holds its column's stats over the league: the player's percentile is `normalize_value` of the player's cell against the league minimum and maximum, the league-average percentile that of the league mean, and the raw numbers are the cell, the mean and the maximum |
| Radar.RadarPgExample | server/app_postgresql.py:209-243 | league goals 0, 5 and 10 and a player with 5 give a player percentile of 50, a league-average percentile of 50, a raw league mean of 5 and a raw maximum of 10 |
| Radar.RadarPgFails | server/app_postgresql.py:193-248 | the route fails exactly when the player is missing or a metric meets a row without its column or with text; a missing player is "Player not found" |
| Radar.MetricXl | server/app.py:539-551 | a missing column is KeyError for it; any other failure is TypeError or ValueError; a metric is never skipped, and it holds its column's stats over the midfielders: the player's percentile is `normalize_value` of the player's cell against the column minimum and maximum, the average percentile that of the column mean, and the raw numbers are `float()` of the cell, the mean and the maximum |
| Radar.ColumnSummary | server/app.py:540-542 | TypeError exactly when text is among the column's non-missing values; NaN minimum, maximum and mean when there are none; otherwise the minimum, maximum and mean of the numbers, with the mean between the other two |
| Radar.ToFloat | server/app.py:545 | ValueError exactly for text that does not parse; NaN exactly for a missing cell; a number is itself and parsed text its value |
| Radar.NormalizeCell | server/app.py:113-117 | 50 on a range of one number; otherwise TypeError exactly for text; a missing cell or a NaN bound gives NaN; a number inside the range gives a percentile in [0, 100] |
| Radar.RadarXl | server/app.py:532-558 | without `pos_`, KeyError('pos_'); failures are that, IndexError, TypeError, ValueError or KeyError for a metric's column; on success `metrics` and all three dicts are keyed by every display name in order, and entry i holds metric i's stats over the midfielders (percentiles by `normalize_value` against the column minimum and maximum, raw `float()` of the player's cell, mean and maximum) |
| Radar.RadarDataXl | server/app.py:532-558 | the in-place loop's response is the functional `RadarXl` (midfielders, player row, then the fold) |
| Radar.MetricXlStats | server/app.py:540-551 | a metric is never skipped; `raw.player` is `float()` of the player's cell; average and max are NaN exactly when no midfielder has a value; otherwise max is a midfielder's value bounding every other, the average percentile is in [0, 100] and mean ≤ max |
| Radar.ColumnMax | server/app.py:541 | the largest of a column's values is one of the rows' numbers and no row's number exceeds it |
| Radar.MetricXlFails | server/app.py:539-551 | one metric raises exactly when the column is missing, text is among the midfielder values, or the player's text cell does not parse or meets a range that is not one number |
| Radar.PlayerCellFails | server/app.py:545-550 | the player's cell raises, in `float()` or in `normalize_value`, exactly when it is text that does not parse or meets a range that is not one number |
| Radar.AssembleXl | server/app.py:539-551 | the spreadsheet loop stores every metric, in order, with that metric's own stats |
| Radar.ResponseEntriesXl | server/app.py:539-551 | for any successful metric loop, entry i holds metric i's stats over the midfielders: the player's percentile is `normalize_value` of the cell against the column minimum and maximum, the average percentile that of the mean, raw `float()` of the cell, mean and maximum; average and max are NaN exactly when the column has no midfielder value; max is the column maximum; the average percentile is in [0, 100]; the mean is at most the max |
| Radar.RadarXlEntries | server/app.py:539-557 | the same per entry for the route: entry i holds the player's percentile against the midfielder minimum and maximum of metric i's column, the mean's percentile, and `float()` of the player's cell, the midfielder mean and the midfielder maximum; NaN exactly when that column is empty; the average percentile in [0, 100] |
| Radar.RadarXlLookups | server/app.py:532-533 | a sheet without `pos_` is KeyError('pos_'); a name with no row is IndexError |
| Parallel.MoneyPg | server/app_postgresql.py:514-515 | `convert_value_to_millions` on a cell: a number n is n/1,000,000; None and text without a digit are 0.0 |
| Parallel.TransformPg | server/app_postgresql.py:500-522 | the nested loops produce one entry per team row in order, one value per metric in order, as `DataPg` |
| Parallel.ParallelDataPg | server/app_postgresql.py:446-524 | the route is "Player not found" without a team, "No data found" for an empty team or a NULL team (which the query matches to no row), else players, metrics, transformed data and the position domain |
| Parallel.ParallelPgFails | server/app_postgresql.py:454-488 | the route fails exactly for a missing player or an empty team query; a NULL team gives "No data found" |
| Parallel.ValuePg | server/app_postgresql.py:506-520 | `Position` is the code of the cell's primary position, a domain code or NA; `Value` is the money in millions; other metrics pass through; a metric the row lacks is None |
| Parallel.DataPg | server/app_postgresql.py:500-522 | one entry per row, in order, entry i for row i's player, keyed by the metrics in order, value j being `ValuePg` of row i for metric j |
| Parallel.TeamQuery | server/app_postgresql.py:478-483 | a NULL team matches no row (`pi.team = NULL` is never true); any other team gives the query's rows |
| Parallel.CodeInDomain | server/app_postgresql.py:494-496 | every position code is in the domain [GK, DF, MF, FW] or is NA |
| Parallel.MoneyPgAsText | server/app_postgresql.py:107 | a numeric cell x reads as any decimal numeral of x would (so as `str(x)` when that is a plain decimal numeral), a whole number as `str(n)`, and None as the text "None" would (0.0) |
| Parallel.ParallelPg | server/app_postgresql.py:446-524 | no team row is "Player not found"; the only failures are that and "No data found"; on success at least one player, the team rows' players in order, entry i for player i, each keyed by the metrics in order with value j being `ValuePg` of team row i for metric j, and the position domain |
| Parallel.TeamRows | server/app.py:186 | the rows kept are exactly those whose `team` equals the player's; a missing team equals nothing |
| Parallel.TeamRowsAppend | server/app.py:186 | the team filter keeps row order: over two runs of rows it gives the two runs' selections concatenated |
| Parallel.TeamRowsOne | server/app.py:186 | one row is kept exactly when its team equals the player's |
| Parallel.TeamRowsPlayers | server/app.py:186 | every row of the team gives its player to the selection's players |
| Parallel.FirstMissing | server/app.py:205-206 | the first metric column the sheet lacks, or none when it has them all |
| Parallel.FirstMissingAt | server/app.py:205-206 | that column is the one at the first position whose column is missing |
| Parallel.TransformXlSpec | server/app.py:199-219 | fails exactly when there is a row and some metric's column is missing, with KeyError for a missing column; otherwise one entry per row, entry i for row i's player, keyed by the metrics in order, value j being `ValueOfXl` of row i for metric j |
| Parallel.DataXl | server/app.py:199-219 | one entry per row, in order, entry i for row i's player, keyed by the metrics' display names in order, value j being `ValueOfXl` of row i for metric j |
| Parallel.RowXl | server/app.py:205-217 | the inner loop: KeyError for the first missing column, else one value per metric, in order |
| Parallel.TransformXl | server/app.py:199-219 | the nested loops give KeyError for the first missing column when there is a row, else one entry per row with one value per metric, as `TransformXlSpec` |
| Parallel.WithCategory | server/app.py:188 | every row, same players in the same order, gets `position_category` = the code of its `pos_`; no other cell changes |
| Parallel.ParallelXl | server/app.py:184-221 | without a `team` column, KeyError('team'); without a row for the player, IndexError; without `pos_`, KeyError('pos_'); otherwise only KeyError for a metric's column; on success the team rows' players in order, entry i for player i keyed by the metrics in order, value j being `ValueOfXl` of the i-th team row (with `position_category` added) for metric j, and the position domain |
| Parallel.ParallelDataXl | server/app.py:184-221 | the route: KeyError('team'), then IndexError for an unknown player, then KeyError('pos_'), then the transform of the team rows with the added `position_category` column |
| Parallel.CodeIsNotNumber | server/app.py:188 | a position code is not a number: `float()` rejects it and the money parser gives 0.0 |
| Parallel.CodeCellReadsZero | server/app.py:205-215 | a cell holding a position code reads 0.0 under any metric name but `Position` |
| Parallel.CategoryRowsReadZero | server/app.py:188-217 | on rows given the added column, a metric mapped to it (other than `Position`) reads 0.0 in every entry |
| Parallel.CategoryReadsZero | server/app.py:188-217 | a metric mapped to the added `position_category` column reads the code text, so its value is 0.0 in every entry (as a float and as money) |
| Parallel.FloatOrZero | server/app.py:211-215 | `float()` with the 0.0 fallback agrees with `float()` wherever that succeeds (NaN stays NaN), and is 0.0 where it raises |
| Parallel.MoneyXl | server/app.py:209-210 | spreadsheet money on a cell: NaN exactly when the cell is missing; a number n is n/1,000,000; text without a digit is 0.0 |
| Parallel.ValueOfXl | server/app.py:205-217 | `Position` always comes from `pos_` and is a domain code or NA; `Value` is the money of the cell; every other metric is `float()` of the cell with 0.0 on failure; all but `Position` are NaN exactly when the cell is missing |
| Parallel.ParallelXlRows | server/app.py:184-219 | the players are the team rows' players in sheet order; every sheet row of the player's team is included; a missing team gives no data |
| Parallel.ParallelXlTeam | server/app.py:184-186 | every sheet row whose team equals the player's gives its player to the response |
| Heatmap.TeamMatches | server/app_postgresql.py:603-606 | the matches kept are exactly those whose home or away name contains the team name |
| Heatmap.TeamMatchesAppend | server/app_postgresql.py:603-606 | the filter keeps season order |
| Heatmap.TeamMatchesOne | server/app_postgresql.py:603-606 | one match is kept exactly when its home or away name contains the team name |
| Heatmap.FirstParticipant | server/app_postgresql.py:620-624 | none exactly when no participant id contains the player name (lower-cased); otherwise the record of one that does |
| Heatmap.FirstParticipantSpec | server/app_postgresql.py:620-624 | none exactly when no participant id contains the player name (lower-cased); otherwise the record of the first that does |
| Heatmap.FindParticipant | server/app_postgresql.py:619-624 | the scan with `break` returns that first match |
| Heatmap.Outcome | server/app_postgresql.py:615-630 | a failed scrape skips the match; a match in which no participant names the player adds nothing and is not skipped |
| Heatmap.OutcomeSpec | server/app_postgresql.py:620-630 | the samples a match adds are the heatmap of the first participant naming the player; a scraped match is skipped only when that participant's record has no heatmap; conversely that first participant's heatmap is added, its record without one skips the match, and its empty record adds nothing |
| Heatmap.Collected | server/app_postgresql.py:611-627 | every collected sample comes from some match's outcome, and every sample of every non-skipped match is collected |
| Heatmap.Skipped | server/app_postgresql.py:612-630 | at most every match is skipped, and none exactly when every match has an outcome |
| Heatmap.SeasonHeatmapData | server/app_postgresql.py:594-635 | the coordinates are the in-order concatenation of the samples of the team's non-skipped matches; the count is the number of skipped team matches |
| Heatmap.FetchMatches | server/app_postgresql.py:614-630 | the fetch loop's coordinates and count are `Collected` and `Skipped` over the matches it is given |
| Heatmap.CollectedSnoc | server/app_postgresql.py:626-627 | one more match appends its samples at the end |
| Heatmap.SkippedSnoc | server/app_postgresql.py:628-630 | one more match adds one to the count exactly when it is skipped |
| Heatmap.CollectedAppend | server/app.py:377-391 | the coordinates collected over two runs of matches are the two runs' coordinates, concatenated in order |
| Heatmap.SkippedAppend | server/app.py:392-393 | the skip count over two runs of matches is the sum of the two counts |
| Heatmap.SkippedBounds | server/app.py:374-395 | when every fetch fails, every match is skipped and nothing is collected |
| Heatmap.CollectedUnnamed | server/app_postgresql.py:619-627 | a player named by no participant collects nothing and causes no skip |
| Heatmap.Rescale | server/app_postgresql.py:694-700 | one point per sample, in order, undone by `Unscale`: nothing is lost |
| Heatmap.RescaleInverse | server/app_postgresql.py:694-700 | the rescale is onto: every point is the rescale of a sample |
| Heatmap.RescaleOnPitch | server/app_postgresql.py:537-542 | samples in the 0–100 square land on the 130 × 90 pitch |
| Heatmap.RescaleExample | server/app.py:457-463 | (10, 10) is drawn at (12.9, 9.0) |
| Heatmap.RescaleAppend | server/app_postgresql.py:694-700 | the rescale maps element by element, in order |
| Heatmap.GetHeatmap | server/app_postgresql.py:686-706 | the route returns the rescaled samples for Manchester United's matches and a 130 × 90 pitch |
| Search.LessIrreflexive | server/app.py:82 | string order is irreflexive |
| Search.LessTransitive | server/app.py:82 | string order is transitive |
| Search.LessTotal | server/app.py:82 | distinct strings are ordered |
| Search.Insert | server/app.py:82 | inserting into a sorted, duplicate-free list keeps it so and adds exactly the element |
| Search.SortedSet | server/app.py:82 | `sorted(set(xs))` is strictly sorted with exactly the elements of xs |
| Search.Matches | server/app.py:75-79 | the test on one name holds exactly when the lower-cased name contains the query: the word-prefix test adds nothing |
| Search.PrefixedWordContained | server/app.py:76-78 | a word of the name that starts with the query puts the query in the name |
| Search.AnyWordStarts | server/app.py:77-78 | the scan is true exactly when some word starts with the query |
| Search.MatchingNames | server/app.py:74-80 | the collected names are exactly the sheet's names that match |
| Search.TakeFive | server/app.py:82 | `[:5]` is a prefix, five long unless the list is shorter; cut from a sorted list it is sorted, and every element left out sorts after every element kept |
| Search.SearchPlayers | server/app.py:66-83 | the search loop, dedupe, sort and cut compute `SearchResult` |
| Search.SearchResult | server/app.py:66-83 | an empty query gives []; the result is strictly sorted, at most 5, each a sheet name containing the query; any such name is in it unless 5 smaller names fill it |

## Left out

- Flask routing, `jsonify`, HTTP status codes, CORS, `request.args` and `json.loads` of the metric map are left out because they are I/O glue. The metric map is a given insertion-ordered dict and the errors are `Error` values.
- The psycopg2 connection and the SQL text are left out because they are an external data source. The player row, league rows and team query result are inputs.
- The Excel loading through pandas is left out for the same reason. The sheet is a `Frame` whose `player` column holds strings.
- `calculate_pca` and the scatter route are left out because they rely on sklearn's floating-point eigen-decomposition.
- `get_player_info` and `get_available_metrics` are left out because they only read from the data source.
- The matplotlib drawing (`create_soccer_field`, `create_season_heatmap`) is left out because it is rendering.
- The `Sofascore` scraper is left out because it uses the network. The season's matches are a sequence and `scrape_heatmaps` is a function from match id to a result.
- An exception raised by `get_match_dicts` or by reading a match's `id` is not modelled. Only per-match scrape failures are.
- Radar.RadarPg: its own success clause gives the keys only, because the per-entry values in it made the key lemma `RadarPgKeys` too costly to prove. The values of every entry are stated by `Radar.RadarPgEntries`.
- Heatmap.TeamMatches: a match record without a `homeTeam` or `awayTeam` name raises KeyError in the team filter, outside the per-match `try`. Match records always carry both names here.
- MoneyPgAsText: Python's `str` writes very large and very small floats in exponent notation (`1e+16`), which is outside the numeral grammar. The lemma covers numbers whose numeral is plain decimal.
- `tqdm` and `print` are left out because they only produce output. The skip count is returned by `SeasonHeatmapData` rather than printed.
- The unreachable second body of `search_players` (server/app.py:88-111) is left out because no call can reach it.
- IEEE float rounding is not modelled; numbers are `real`.
- Decimal.ParseFloat: a restricted grammar without exponents, `inf`, `nan` or underscores. In particular the sheet text "nan" reads as unparseable rather than NaN.
- Text.Lower and Text.Upper: ASCII letters only; Python's Unicode case mapping is not modelled.
- Radar.RadarDataXl: `df['pos_'].str.contains(...)` raises AttributeError in pandas when the `pos_` column holds no text at all. The model keeps no midfielder rows there and reports NaN averages instead.
- Heatmap.SeasonHeatmapData: a participant record without `heatmap` raising KeyError counts as a skipped match. An empty record counts as contributing nothing.
- The client files (React and D3 components, axios calls, image fetch) are left out because they are UI and network code.
