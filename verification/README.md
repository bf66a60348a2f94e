# Chhattisgarh monthly MGNREGA endpoint, modelled in Dafny

This project models the serverless handler `api/mgnregs/chhattisgarh/monthly.js`.
The handler answers `GET ?district=…&month=MM&year=YYYY` by asking the data.gov.in
MGNREGA resource for one district's records of one month. It works in four steps:

- It validates the query and the API key, with a fixed order of error answers.
- It turns the month code into the dataset's month name (`MONTH_MAP`) and an
  April-to-March financial year.
- It normalizes the district name (`normalizeDistrictName`). That means upper case,
  hyphens to spaces, whitespace runs collapsed, trimming, and then an ordered list
  of override rules for renamed or merged districts.
- It sends the district query. If that comes back as JSON with no records, it
  sends a wide state-wide query and keeps the records whose normalized
  `district_name` matches.

The modules follow that structure:

- `Wrappers`: `Option` and `Result`.
- `Text`: the JavaScript string operations the handler uses. These are `\s`
  whitespace, ASCII `toUpperCase`, `replace`, `trim`, `includes` and `slice`.
- `Decimal`: digit strings, `parseInt` on them, and integer rendering in template
  literals.
- `District`: the normalizer, plus a declarative table of its override rules.
- `Period`: `MONTH_MAP` and the financial year.
- `Handler`: validation, the two outbound queries, the reply handling and the
  fallback filter.

The two `fetch` calls are not performed. Each upstream reply is an input (`Upstream`):
its `ok` flag, status, `content-type` header, body text and the `records` member of
its parsed JSON. `Handle` returns an `Exchange`, which holds the queries the handler
sends, in order, and the response it gives. The API key from the environment is an
input too.

Three behaviours of the code follow from it directly and are easy to miss:

- A two-digit month code outside 01–12 (such as `13` or `00`) is not rejected.
  `MONTH_MAP` has no entry for it, so `URLSearchParams.set` writes the month
  filter as the text `undefined`. Such a month gets the financial year that starts
  in the given year (`UnknownMonthIsSent`).
- `KAWARDHA`, the canonical name of the first rule, contains none of the patterns.
  So it does not re-match its own rule. It falls through unchanged, and
  normalization is still idempotent (`CanonicalIsFixed`, `NormalizeIdempotent`).
- `parseInt` drops leading zeros, and the year is not range-checked. So year
  `0000` gives fin year `-1-0` for January to March (`FinYearExamples`).

## Model

Some functions carry no contract of their own. Their behaviour is stated by the
rows of the lemmas about them:

- `Handler.PrimaryQuery` and `Handler.WideQuery`: `QueryOfShape`, `QueriesDiffer`,
  `KabirdhamFebruary2024` and `UnknownMonthIsSent`.
- `Text.Upper`: `UpperOfLower`, `UpperOfUpper` and `NormalizeIgnoresAsciiCase`.
- `Text.Trim`: `TrimAt`, `TrimKeepsWord`, `TrimRevealsWord` and `TrimFixes`.
- `Decimal.Value`: `ValueOfShowNat`, `ValueIgnoresLeadingZero` and `ParseShowInt`.
- `District.ApplyOverrides`: `CanonicalizeFollowsTable` and `NormalizeByUpper`.

| member | source | states |
|---|---|---|
| Text.TrimStart | api/mgnregs/chhattisgarh/monthly.js:8 | the result is a suffix of the input, does not start with whitespace, and everything dropped is whitespace |
| Text.TrimEnd | api/mgnregs/chhattisgarh/monthly.js:8 | the result is a prefix of the input, does not end with whitespace, and everything dropped is whitespace |
| Text.CollapseSpaces | api/mgnregs/chhattisgarh/monthly.js:8 | `replace(/\s+/g, ' ')` leaves no whitespace but single spaces, never two spaces in a row, and no character that was not in the input; it starts with a space exactly when the input starts with whitespace |
| Text.CollapseIsBlankedDeduplicated | api/mgnregs/chhattisgarh/monthly.js:8 | collapsing is the same as turning every whitespace character into a space and then dropping each space that follows a space, so every other character survives, in order, and nothing is added |
| Text.CollapseRevealsWord | api/mgnregs/chhattisgarh/monthly.js:8 | a whitespace-free word that occurs in the collapsed string already occurs in the original |
| Text.TrimAt | api/mgnregs/chhattisgarh/monthly.js:8 | `trim` returns one contiguous piece of its input, with only whitespace before and after it |
| Text.TrimRevealsWord | api/mgnregs/chhattisgarh/monthly.js:8 | whatever occurs in the trimmed string occurs in the original |
| Text.HyphensRevealWord | api/mgnregs/chhattisgarh/monthly.js:8 | a whitespace-free word found after hyphens become spaces was at the same place before |
| Text.TrimKeepsWord | api/mgnregs/chhattisgarh/monthly.js:8 | trimming never destroys an occurrence of a whitespace-free word |
| Text.CollapseKeepsWord | api/mgnregs/chhattisgarh/monthly.js:8 | collapsing whitespace never destroys an occurrence of a whitespace-free word |
| Text.CollapseFixes | api/mgnregs/chhattisgarh/monthly.js:8 | a string whose only whitespace is single spaces is unchanged by collapsing |
| Text.TrimFixes | api/mgnregs/chhattisgarh/monthly.js:8 | a string with no whitespace at either end is unchanged by `trim` |
| Text.UpperOfLower | api/mgnregs/chhattisgarh/monthly.js:7 | upper-casing a lower-cased string gives the upper-cased original |
| Text.UpperOfUpper | api/mgnregs/chhattisgarh/monthly.js:7 | upper-casing twice is upper-casing once |
| Text.Prefix | api/mgnregs/chhattisgarh/monthly.js:53 | `slice(0, 500)` keeps the first `min(length, 500)` characters of the body |
| Decimal.ShowNat | api/mgnregs/chhattisgarh/monthly.js:30 | a number in a template literal is written as digits with no leading zero |
| Decimal.ShowInt | api/mgnregs/chhattisgarh/monthly.js:30 | a non-negative integer is written as digits only, a negative one as a minus sign followed by digits |
| Decimal.ValueIgnoresLeadingZero | api/mgnregs/chhattisgarh/monthly.js:29 | `parseInt` skips a leading zero, so a year such as `0024` reads as 24 |
| Decimal.ValueOfShowNat | api/mgnregs/chhattisgarh/monthly.js:29-30 | reading the digits of a rendered natural number back gives the number |
| Decimal.ParseShowInt | api/mgnregs/chhattisgarh/monthly.js:30 | a rendered integer, minus sign included, reads back as itself |
| Decimal.ShowIntInjective | api/mgnregs/chhattisgarh/monthly.js:30 | different integers are rendered as different text |
| District.Clean | api/mgnregs/chhattisgarh/monthly.js:7-8 | the cleaned `base` has no lower-case ASCII letter, no hyphen, no whitespace but single spaces, and no space at either end |
| District.CleanFixes | api/mgnregs/chhattisgarh/monthly.js:7-8 | a name already in clean shape is its own cleaned form |
| District.CleanKeepsWord | api/mgnregs/chhattisgarh/monthly.js:7-8 | a hyphen-free, whitespace-free word found in the upper-cased input is still found in the cleaned `base` |
| District.CleanRevealsWord | api/mgnregs/chhattisgarh/monthly.js:7-8 | a whitespace-free word found in the cleaned `base` occurs in the upper-cased input |
| District.CleanFindsWord | api/mgnregs/chhattisgarh/monthly.js:7-8 | for a whitespace-free word without hyphens, the cleaned `base` contains it exactly when the upper-cased input does |
| District.CanonicalNamesAreClean | api/mgnregs/chhattisgarh/monthly.js:9-13 | the hyphenated canonical spellings become the spaced names after `replace(/-/g, ' ')`, and every canonical name is in clean shape |
| District.Normalize | api/mgnregs/chhattisgarh/monthly.js:6-15 | every normalized name is in clean shape, and a missing or empty name normalizes to the empty string |
| District.Canonicalize | api/mgnregs/chhattisgarh/monthly.js:9-14 | the override chain keeps clean shape and maps the empty name to itself |
| District.FirstOverride | api/mgnregs/chhattisgarh/monthly.js:9-14 | the answer is the least index of an applying rule, and none means no rule applies |
| District.RulesSpelledOut | api/mgnregs/chhattisgarh/monthly.js:9-13 | each rule of the table applies exactly when the source's `includes` condition for it holds |
| District.PatternsAreWords | api/mgnregs/chhattisgarh/monthly.js:9-13 | every pattern the rules test with `includes` is a whitespace-free word without hyphens |
| District.FirstOverrideAgrees | api/mgnregs/chhattisgarh/monthly.js:9-14 | two names on which every rule agrees get the same first applying rule |
| District.RuleChosenFromUpper | api/mgnregs/chhattisgarh/monthly.js:7-14 | the override rule that decides is determined by the upper-cased name alone |
| District.NormalizeByUpper | api/mgnregs/chhattisgarh/monthly.js:6-15 | the normalized name is the canonical name of the first rule with a pattern in the upper-cased input, and the cleaned name when no rule has one |
| District.CanonicalizeFollowsTable | api/mgnregs/chhattisgarh/monthly.js:9-14 | the chain of `if`s equals the table read first match first, so the first rule that applies decides |
| District.OverridePriority | api/mgnregs/chhattisgarh/monthly.js:9-13 | when rule k applies and no earlier rule does, the result is rule k's canonical name, whatever later rules say |
| District.NoOverrideKeepsBase | api/mgnregs/chhattisgarh/monthly.js:14 | a name that no rule touches is returned as cleaned |
| District.CanonicalIsFixed | api/mgnregs/chhattisgarh/monthly.js:9-14 | every canonical name is left unchanged both by cleaning and by the override chain |
| District.CanonicalizeSettles | api/mgnregs/chhattisgarh/monthly.js:9-14 | applying the override chain twice to a clean name is applying it once, and its output needs no further cleaning |
| District.NormalizeIdempotent | api/mgnregs/chhattisgarh/monthly.js:6-15 | normalizing a normalized name changes nothing |
| District.NormalizeIgnoresAsciiCase | api/mgnregs/chhattisgarh/monthly.js:7 | lower- or upper-casing a name first does not change its normalized form |
| District.KabirdhamInAnyCase | api/mgnregs/chhattisgarh/monthly.js:7-9 | any name containing KABIRDHAM in any letter case normalizes to KAWARDHA |
| Period.MonthName | api/mgnregs/chhattisgarh/monthly.js:1-4 | `MONTH_MAP[month]` is defined exactly for the codes 01 to 12, and there it is the calendar abbreviation of that month |
| Period.MonthCodesAreNumbered | api/mgnregs/chhattisgarh/monthly.js:1-4 | every key of the table is a month code whose entry is that month's calendar name |
| Period.MonthCodeIsKey | api/mgnregs/chhattisgarh/monthly.js:1-4 | every month code 01 to 12 is a key of the table |
| Period.FinYear | api/mgnregs/chhattisgarh/monthly.js:28-30 | for a month code, the label is that of the April-to-March year holding that month of that year; any other two-digit code gets the year starting in the given year |
| Period.FinYearLabelInjective | api/mgnregs/chhattisgarh/monthly.js:30 | different starting years give different `start-(start+1)` labels, negative years included |
| Period.FinYearCoversMonth | api/mgnregs/chhattisgarh/monthly.js:30 | the fin year of a month is the label of a starting year exactly when that year's financial year holds the month |
| Period.FinYearExamples | api/mgnregs/chhattisgarh/monthly.js:29-30 | February 2024 is in 2023-2024, April 2024 in 2024-2025, and January of year 0000 in -1-0 |
| Handler.Validate | api/mgnregs/chhattisgarh/monthly.js:19-26 | the checks come in order: an empty district, then a month that is not two digits, then a year that is not four digits give their 400 answers; a missing key gives 500 with the hint; only a request passing everything yields parameters, carrying the parsed year |
| Handler.ValidateSeesDistrictEmptiness | api/mgnregs/chhattisgarh/monthly.js:19-22 | validation sees the district only to tell whether it is empty |
| Handler.QueryOfShape | api/mgnregs/chhattisgarh/monthly.js:33-41 | a query carries the key, `format=json`, its limit, state CHHATTISGARH, the month and fin year, and a district filter exactly when it is given one |
| Handler.QueriesDiffer | api/mgnregs/chhattisgarh/monthly.js:34-64 | the wide query is the district query without its district filter and with limit 5000 instead of 100; the district filter is the normalized district |
| Handler.MonthFilter | api/mgnregs/chhattisgarh/monthly.js:28-40 | the month filter is the calendar name of the month for the codes 01 to 12, and the text `undefined` for any other code |
| Handler.Filter | api/mgnregs/chhattisgarh/monthly.js:73 | `filter` returns only accepted elements and never more than it was given |
| Handler.FilterCounts | api/mgnregs/chhattisgarh/monthly.js:73 | `filter` keeps each accepted element as many times as it occurs, and drops every other one |
| Handler.FilterIsSubsequence | api/mgnregs/chhattisgarh/monthly.js:73 | `filter` keeps the order of the elements it keeps |
| Handler.FilterAppend | api/mgnregs/chhattisgarh/monthly.js:73 | filtering a concatenation is concatenating the filtered parts |
| Handler.FilterKeepsAccepted | api/mgnregs/chhattisgarh/monthly.js:73 | a list whose every element is accepted passes through unchanged |
| Handler.FilterIdempotent | api/mgnregs/chhattisgarh/monthly.js:73 | filtering twice is filtering once |
| Handler.KeepDistrict | api/mgnregs/chhattisgarh/monthly.js:72-73 | the fallback keeps, in order, every wide record whose normalized `district_name` equals the normalized requested district, as often as it occurs, and nothing else |
| Handler.FallbackRecords | api/mgnregs/chhattisgarh/monthly.js:69-74 | after an ok JSON wide reply the records are, in order and with their counts, the wide records that match the district; after any other reply there are none |
| Handler.Serve | api/mgnregs/chhattisgarh/monthly.js:45-76 | a non-ok reply gives 502 `upstream_failed` with its status and body; a non-JSON reply gives 502 `upstream_nonjson` with at most the first 500 characters of the body; a non-empty record list is answered unchanged after one query; an empty one sends the wide query second and answers 200 with the wide records that match the district, or with no records when the wide reply is not ok or not JSON |
| Handler.Handle | api/mgnregs/chhattisgarh/monthly.js:19-76 | an invalid request sends nothing and gives the validation answer; a valid one gives what `Serve` gives for its two queries and normalized district; the status is always 200, 400, 500 or 502, and 200 exactly when records are answered |
| Handler.WideReplyUnusedOtherwise | api/mgnregs/chhattisgarh/monthly.js:56-76 | unless the district query came back as JSON with no records, the wide reply has no effect |
| Handler.HandleSeesNormalizedDistrict | api/mgnregs/chhattisgarh/monthly.js:19-73 | two requests whose districts are both empty or both not, and normalize alike, get the same queries and the same answer |
| Handler.HandleIgnoresDistrictCase | api/mgnregs/chhattisgarh/monthly.js:19-73 | the letter case of the `district` parameter does not change what is sent or answered |
| Handler.KabirdhamFebruary2024 | api/mgnregs/chhattisgarh/monthly.js:28-41 | `district=Kabirdham&month=02&year=2024` asks for KAWARDHA, Feb and 2023-2024 in CHHATTISGARH |
| Handler.UnknownMonthIsSent | api/mgnregs/chhattisgarh/monthly.js:28-40 | a two-digit code that is not a month reaches the query as month `undefined`, with the fin year starting in the given year |

## Left out

- The network. Both `fetch` calls are replaced by their replies, given as inputs, and the `User-Agent` header is not modelled.
- The request URL itself. The resource id in the path (`RESOURCE_ID`), `URLSearchParams` percent-encoding and the order of the query string are not modelled; a query is a map from parameter name to value.
- `process.env`. The API key is a parameter; `None` stands for an unset variable.
- Logging. `console.log` of both URLs has no effect on the result.
- JSON. Parsing the reply body is not modelled; the `records` member arrives already parsed, with `None` for a body whose `records` is not an array. Record fields other than `district_name` are carried as an opaque map.
- The catch-all `server_error` answer (lines 77-79). It is given only when `fetch`, `text()` or `json()` throws, and those are outside the model.
- Non-string query values. A query parameter given twice arrives in the source as an array and is turned into text by `String`; here every parameter is a string or absent. Likewise a non-string `district_name` other than a missing one is not modelled.
- Letter case beyond ASCII. `toUpperCase` is modelled on ASCII letters only; other characters pass through unchanged.
- UTF-16. Strings are sequences of code points, so `slice(0, 500)` counts characters, not UTF-16 code units.
