# Transaction normalization and classification pipeline

This project models the part of the personal-finance tracker that turns bank CSV rows into
canonical transaction records. It has two parts:

- **The rule engine** (`app/constants.py`):
  - `normalize_store`: an exact table, then an ordered substring-pattern table, then a
    cleanup pass with title-casing.
  - The category classifier (`categorize_by_store`, `categorize_by_keywords`,
    `suggest_category`).
  - The category normalizer (`normalize_category`, `is_valid_category`,
    `get_transaction_type`).
  - The tag rules (`get_automatic_tags`, `suggest_tags`).
- **The bank-format row conversion** (`app/csv_parser.py`):
  - `parse_date`, which tries five strptime formats in order.
  - The SoFi and Capital One per-row rules and row loops.
  - `detect_csv_format` and the `parse_csv` dispatcher.

Modules, leaf first:

| module | file | models |
|---|---|---|
| `Wrappers` | wrappers.dfy | `Option` (Python `None`) and `Result` (a raised `ValueError`) |
| `Text` | text.dfy | the ASCII behaviour of `str.lower`, `str.title`, `str.strip`, `in` and `re.sub(r'\s+', ' ', …)` |
| `Rules` | rules.dfy | first-match-wins lookup over an ordered table |
| `Cleanup` | cleanup.dfy | the regex removals of `normalize_store`, written out as scanners |
| `StoreNormalizer` | store_normalizer.dfy | `STORE_PATTERNS`, `STORE_EXACT_MATCH` and `normalize_store` |
| `Categories` | categories.dfy | the category enumerations, the classifier and the normalizer |
| `Tags` | tags.dfy | `get_automatic_tags`, `CATEGORY_TAGS` and `suggest_tags` |
| `Amounts` | amounts.dfy | `float(s.replace(",", "").replace("$", ""))` on an amount cell |
| `Dates` | dates.dfy | `datetime.strptime` for the five formats, and `parse_date` |
| `Collecting` | collect.dfy | the row loop with skip-on-error that both parsers share |
| `Detection` | detection.dfy | `detect_csv_format` |
| `CsvParser` | csv_parser.dfy | the per-row rules, the two parsers and `parse_csv` |

Modelling choices:

- **Rule tables.** Each rule table is an ordered `seq` of pairs. Python dicts iterate in
  declaration order, and `STORE_PATTERNS` depends on that order.
- **Text.** Strings are ASCII. `str.title()` upper-cases a letter whose previous character is
  not a letter and lower-cases every other letter. `\s` and `str.isspace()` are the ASCII
  whitespace characters.
- **Regex removals.** Each `re.sub` in the cleanup is the left-to-right scan the regex engine
  performs:
  - `\s+\d{4,}` removes a whitespace run together with all the digits after it, anywhere in
    the string.
  - The suffix pattern `\s+Suffix\.?$` is case-insensitive. Its `$` also matches before one
    final newline, and that newline is kept.
- **CSV rows.** A CSV file is a `CsvTable`: the reader's field names (`None` for an empty
  file) and one `map<string, Option<string>>` per row. A cell is `None` when the row is
  shorter than the header; `strip()` on that `None` raises, so the row is skipped.
  `row.get(key, default).strip()` is `Cell`.
- **Amounts.** Amounts are exact `real`s. `float()` is modelled on its decimal grammar: surrounding
  whitespace, an optional sign, digits with an optional fraction, and an optional exponent.
  Transaction types are the datatype `TxType = Income | Expense`.
- **Dates.** Each strptime directive is the alternation CPython compiles for it, tried in order
  with backtracking:
  - `%m` is `1[0-2]|0[1-9]|[1-9]`.
  - `%d` is `3[01]|[12]\d|0[1-9]|[1-9]| [1-9]`.
  - `%Y` is four digits and `%y` is two digits (00-68 are 20xx, 69-99 are 19xx).

  The match must cover the whole string, and the date must exist, with a year from 1 to 9999.

Behaviour of the code worth knowing:

- **Category name.** The expense category for restaurants is "Dining Out"
  (app/constants.py:23).
- **Sign of a SoFi amount.** A positive SoFi amount always makes the row income, even when
  the Type cell says debit, and a negative one always makes it an expense
  (app/csv_parser.py:147-152; `CsvParser.ApplySign`, `CsvParser.SofiRecordFields`).
- **Validity of unknown categories.** `is_valid_category` rejects names outside the
  enumerations: the title-cased fallback of `normalize_category` is never one of the canonical
  names (app/constants.py:533-537; `Categories.IsValidCategoryIff`).

## Model

| member | source | states |
|---|---|---|
| `Rules.FirstMatchAtFirstHit` | app/constants.py:209-212 | the first table entry whose key fires decides the result, whatever later entries say |
| `Rules.FirstMatchNone` | app/constants.py:209-213 | the scan yields nothing exactly when no entry of the table fires |
| `Rules.FirstMatchSome` | app/constants.py:209-212 | every result is the value of an entry that fires with no firing entry before it |
| `Text.TitleIdempotent` | app/constants.py:239 | applying `str.title()` twice gives the same text as applying it once |
| `Text.StripCollapsedWellSpaced` | app/constants.py:235-236 | after collapsing whitespace runs and stripping, there is no whitespace at either end, every whitespace character is a plain space, and no two are adjacent |
| `Text.CollapseSpaces` | app/constants.py:235 | the result is empty only for empty input, keeps a non-space first character, and has only single plain spaces |
| `Text.CollapseKeeps` | app/constants.py:235 | text without whitespace is kept as it is, in order, in front of the collapse of the rest |
| `Text.CollapseRun` | app/constants.py:235 | a maximal non-empty whitespace run becomes exactly one plain space; with `CollapseKeeps` this fixes the result on every input |
| `Cleanup.RemoveMarked` | app/constants.py:222-223 | after removing `*`+`[A-Z0-9]+` (or `#`+`\d+`), no mark followed by a body character is left, and the text is no longer than before |
| `Cleanup.RemoveMarkedAbsent` | app/constants.py:222-223 | text without the mark character is unchanged |
| `Cleanup.RemoveMarkedKeeps` | app/constants.py:222-223 | text without the mark is kept, in order, in front of what the rest becomes |
| `Cleanup.RemoveMarkedDrops` | app/constants.py:222-223 | a mark and its maximal non-empty run of code characters are removed together |
| `Cleanup.RemoveMarkedLoneMark` | app/constants.py:222-223 | a mark with no code character after it is kept; the three lemmas fix the result on every input |
| `Cleanup.RemoveLongNumbers` | app/constants.py:224 | afterwards no whitespace character is followed by four digits anywhere, not only at the end; the leading digits are kept |
| `Cleanup.RemoveLongNumbersAbsent` | app/constants.py:224 | text where no whitespace character is followed by a digit is unchanged |
| `Cleanup.RemoveLongNumbersKeeps` | app/constants.py:224 | text without whitespace is kept, in order, in front of what the rest becomes |
| `Cleanup.RemoveLongNumbersDrops` | app/constants.py:224 | a maximal whitespace run followed by four or more digits is removed with all of those digits |
| `Cleanup.RemoveLongNumbersShortRun` | app/constants.py:224 | a maximal whitespace run followed by fewer than four digits is kept; the three lemmas fix the result on every input |
| `Cleanup.RemoveMarketplaceAbsent` | app/constants.py:225 | text without the case-sensitive "Mktpl" is unchanged |
| `Cleanup.RemoveMarketplaceKeeps` | app/constants.py:225 | text without an "M" is kept, in order, in front of what the rest becomes |
| `Cleanup.RemoveMarketplaceDrops` | app/constants.py:225 | "Mktpl", the longest a/c/e run after it and the whitespace after that are removed |
| `Cleanup.RemovePaymentAbsent` | app/constants.py:226 | text without the case-sensitive "Pmt" is unchanged |
| `Cleanup.RemovePaymentKeeps` | app/constants.py:226 | text without a "P" is kept, in order, in front of what the rest becomes |
| `Cleanup.RemovePaymentDrops` | app/constants.py:226 | "Pmt", an "s" right after it if there is one, and the whitespace after that are removed |
| `Cleanup.StripSuffixAtEnd` | app/constants.py:229-232 | a name, whitespace, a suffix in any letter case and an optional period become just the name |
| `Cleanup.CleanedWellSpaced` | app/constants.py:222-236 | the cleaned name has no whitespace at its ends and only single plain spaces inside |
| `Cleanup.CleanedEmpty` | app/constants.py:215-236 | cleanup of the empty name gives the empty name |
| `Cleanup.RandomStoreCleaned` | app/constants.py:222-236 | "SOME RANDOM STORE LLC" cleans to "SOME RANDOM STORE": only the LLC suffix is removed |
| `StoreNormalizer.MatchStorePattern` | app/constants.py:209-212 | the loop with early return gives the value of the first pattern in declaration order that occurs in the lower-cased name, or nothing |
| `StoreNormalizer.CleanStore` | app/constants.py:214-236 | the reassignment chain and the suffix loop compute the cleaned name: five removals, the six suffixes in list order, collapse, strip |
| `StoreNormalizer.NormalizeStore` | app/constants.py:187-239 | the method returns what the specification function `NormalizedStore` gives (exact table, pattern table, cleanup and title case) |
| `StoreNormalizer.NormalizedStoreBlank` | app/constants.py:199-239 | the result is "" exactly when the input is empty or all whitespace: a non-blank name is never erased |
| `StoreNormalizer.NormalizedStoreExact` | app/constants.py:202-207 | a name whose stripped lower case is an exact-table key gets that table value, before any pattern is tried |
| `StoreNormalizer.PaddedPaypal` | app/constants.py:176-207 | " PYPL " normalizes to "PayPal" |
| `StoreNormalizer.NormalizedStoreFirstPattern` | app/constants.py:209-212 | with no exact hit, the first pattern in declaration order that occurs in the lower-cased name decides |
| `StoreNormalizer.UberEatsShadowed` | app/constants.py:146-148 | any name containing "uber eats" is decided by "uber" or an earlier pattern, so it never becomes "Uber Eats" |
| `StoreNormalizer.NormalizedStoreCleanup` | app/constants.py:214-239 | with no rule hit, the result is the cleaned name title-cased, which is well spaced, in title case and equal to the cleaned name up to letter case; if cleanup empties the name, the result is the title-cased original |
| `StoreNormalizer.RandomStoreNormalized` | app/constants.py:229-239 | "SOME RANDOM STORE LLC" normalizes to "Some Random Store" |
| `StoreNormalizer.StorePatternsNonEmpty` | app/constants.py:80-184 | no pattern, exact key or display name of the store tables is empty |
| `Categories.ClassifierCategoriesAreCanonical` | app/constants.py:22-57 | the store-rule categories are expense categories other than "Other Expense"; income and expense categories are disjoint; all of them, and the keyword categories, are in `ALL_CATEGORIES` |
| `Categories.CategorizeByStore` | app/constants.py:276-326 | the result is None or one of the eight store-rule categories |
| `Categories.CategorizeByStoreNone` | app/constants.py:283-326 | None exactly when no keyword of any rule occurs in the lower-cased store |
| `Categories.CategorizeByKeywords` | app/constants.py:329-367 | the result is None or one of Interest, Salary, Rent, Utilities, Student Loan, Car Payment |
| `Categories.SuggestCategory` | app/constants.py:370-388 | the result is always a member of `ALL_CATEGORIES` |
| `Categories.SuggestCategoryStoreFirst` | app/constants.py:377-380 | the first store rule that fires decides, whatever the description and type hint say |
| `Categories.SuggestCategoryDefault` | app/constants.py:382-388 | "Other Expense" exactly when neither the store rules nor the keyword rules give a category |
| `Categories.FindIgnoringCase` | app/constants.py:524-527 | a found category is in the list and lower-cases to the key; nothing is found exactly when no entry lower-cases to the key |
| `Categories.NormalizeCategory` | app/constants.py:509-530 | the method with its early-return scan returns what the specification function `NormalizedCategory` gives |
| `Categories.MappingValuesCanonical` | app/constants.py:245-260 | every value of `CATEGORY_MAPPING` is a canonical category |
| `Categories.CanonicalLowerInjective` | app/constants.py:57 | no two canonical names differ only in letter case, so the scan order of `ALL_CATEGORIES` does not matter |
| `Categories.NormalizedCategoryAt` | app/constants.py:514-527 | `normalize_category` is the identity on every canonical category |
| `Categories.SuggestedCategoryIsNormal` | app/constants.py:509-530 | every `suggest_category` result is left unchanged by `normalize_category` |
| `Categories.NormalizedCategoryIdempotent` | app/constants.py:509-530 | normalizing twice gives the same result as normalizing once |
| `Categories.IsValidCategoryIff` | app/constants.py:533-537 | valid exactly when non-empty and the stripped lower case is a mapping key or the lower case of a canonical name |
| `Categories.TransactionTypeOfCategories` | app/constants.py:540-547 | income categories are "income"; expense categories and every invalid input are "expense" |
| `Categories.UnknownCategoryInvalid` | app/constants.py:533-547 | "xyz" and "" are invalid and both count as expenses |
| `Tags.GetAutomaticTags` | app/constants.py:401-442 | the appending method builds the same list as the specification function `AutomaticTags` |
| `Tags.AppendInOrder` | app/constants.py:413-436 | appending the tag of a later rule keeps the list in rule order |
| `Tags.TagsForInRuleOrder` | app/constants.py:413-436 | since Subscriptions and Rent cannot both fire, the tags come from {recurring, housing, golf, vacation, large, weekly} in strictly increasing rule order, with no duplicates |
| `Tags.TagsForMembership` | app/constants.py:413-436 | each tag is present exactly when a rule giving it fires |
| `Tags.AutomaticTagsRules` | app/constants.py:401-442 | no duplicates, rule order, and: recurring iff Subscriptions or Rent, housing iff Rent, golf and vacation iff their words occur, large iff amount > 500, weekly iff Groceries |
| `Tags.Top3` | app/constants.py:492 | a prefix of the category's list of length exactly min(3, length): the first three suggestions, or all of a shorter list |
| `Tags.SuggestTags` | app/constants.py:483-502 | the list-building method yields the same distinct tags as the specification function `SuggestedTags` |
| `Tags.TopSuggestionsAvoidStoreTags` | app/constants.py:455-480 | no category's top three suggestions include "dining" or "fitness" |
| `Tags.SuggestedTagsRules` | app/constants.py:483-502 | only top-three category tags plus dining/fitness; dining iff "restaurant" or "cafe" in the store; fitness iff "gym" or "fitness"; empty for an unlisted category and an empty store |
| `Amounts.RemoveChar` | app/csv_parser.py:142 | `replace(c, "")` leaves no `c` and never lengthens the text |
| `Amounts.RemoveCharKeeps` | app/csv_parser.py:142 | every other character is kept, and the length drops by the number of removed characters |
| `Amounts.RemoveCharAppend` | app/csv_parser.py:142 | removal distributes over concatenation and drops a single character exactly when it is `c`, so the kept characters stay in input order |
| `Amounts.CleanAmount` | app/csv_parser.py:142 | no thousands separator or dollar sign is left |
| `Amounts.ParseFloat` | app/csv_parser.py:142 | `float()` of an empty or all-whitespace string raises ValueError |
| `Amounts.ParseAmount` | app/csv_parser.py:194-195 | the conversion shared with line 142: a cell of only separators, dollar signs and whitespace raises ValueError; `ParseFormatCents`, `ParseFormatDollars` and `CsvParser.MoneyCellValues` give the values of written amounts |
| `Amounts.ParseFormatCents` | app/csv_parser.py:142 | an amount written as [-]dollars.cc reads back as that many hundredths |
| `Amounts.ParseFormatDollars` | app/csv_parser.py:194-195 | an amount written with a dollar sign and thousands separators ("-$1,234.56") reads the same as its plain [-]dollars.cc text, so as that many hundredths |
| `Amounts.ThousandsSeparatedAmount` | app/csv_parser.py:142 | "$1,234.56" reads as 1234.56 |
| `Dates.MatchFrom` | app/csv_parser.py:107 | a match captures one text per directive and ends within the string |
| `Dates.StrpTime` | app/csv_parser.py:107 | every parsed date exists: a year from 1 to 9999, a month from 1 to 12, and a day within its month |
| `Dates.ParseDate` | app/csv_parser.py:95-112 | the loop over the formats returns what the specification function `ParsedDate` gives |
| `Dates.FirstParsedOk` | app/csv_parser.py:105-108 | a result comes from the first format that parses; every earlier format fails |
| `Dates.FirstParsedErr` | app/csv_parser.py:105-112 | the error is raised exactly when no format parses |
| `Dates.IsoTextFields` | app/csv_parser.py:108 | the output is YYYY-MM-DD and reads back as the parsed year, month and day |
| `Dates.ParsedDateValid` | app/csv_parser.py:95-112 | a success is the ISO text of a valid date parsed by the first format that parses |
| `Dates.AmbiguousDateIsMonthFirst` | app/csv_parser.py:97-103 | "01/02/2024" becomes "2024-01-02": month first wins |
| `Dates.DayFirstFallback` | app/csv_parser.py:97-103 | "13/01/2024" becomes "2024-01-13": day first applies only when the month-first formats fail |
| `Collecting.Collect` | app/csv_parser.py:129-171 | the parser output is never longer than the input rows |
| `Collecting.CollectExactly` | app/csv_parser.py:129-171 | the output is exactly the records of the accepted rows, in file order; no accepted row is missing and skipped rows leave no partial record |
| `CsvParser.CategorizeSofiTransaction` | app/csv_parser.py:44-74 | the suggested category is always canonical |
| `CsvParser.SofiKindRules` | app/csv_parser.py:56-72 | type income words win; then description income words; then type expense words give expense; otherwise the decision matches `get_transaction_type` of the category |
| `CsvParser.ApplySign` | app/csv_parser.py:147-152 | the amount is non-negative and equals ± the raw amount; negative gives expense, positive gives income, zero keeps the guess |
| `CsvParser.SignAdjust` | app/csv_parser.py:147-152 | the reassigning code computes the sign rule `ApplySign` |
| `CsvParser.ParseSofiRow` | app/csv_parser.py:130-167 | the loop body returns the record of the specification function `SofiRecord`, or a skip |
| `CsvParser.BuildSofiTransaction` | app/csv_parser.py:144-167 | categorize, apply the sign rule, choose the store and parse the date, as `SofiTransaction` gives |
| `CsvParser.ParseSofiCsv` | app/csv_parser.py:119-172 | the row loop returns the records of the accepted rows in order |
| `CsvParser.SofiRecordFields` | app/csv_parser.py:131-166 | a record comes from a posted row whose amount parsed. The amount is abs(raw) and the sign decides the type. The date is ISO. The description is "" and original_type is the Type cell. The category is `suggest_category(normalize_store(desc), desc, type)`. The store is "SoFi" for Interest, else the normalized description |
| `CsvParser.SofiRecordSkipped` | app/csv_parser.py:130-170 | a row is skipped exactly when a cell is missing, the status is not "posted", the amount does not parse, or the date does not parse |
| `CsvParser.SofiWithoutStatusSkipped` | app/csv_parser.py:135-139 | a row without a Status cell reads "" and is never posted |
| `CsvParser.CategorizeCapitalOneTransaction` | app/csv_parser.py:77-91 | the category is canonical and the type is always expense |
| `CsvParser.ParseCapitalOneRow` | app/csv_parser.py:186-226 | the loop body returns the record of the specification function `CapitalOneRecord`, or a skip |
| `CsvParser.ParseCapitalOneCsv` | app/csv_parser.py:175-228 | the row loop returns the records of the accepted rows in order |
| `CsvParser.MoneyCellValues` | app/csv_parser.py:194-195 | a blank Debit or Credit cell is 0, and a written cents amount reads back as its value |
| `CsvParser.CapitalOneRecordFields` | app/csv_parser.py:187-223 | A positive debit gives an expense of the debit, even when there is a credit. Otherwise a positive credit gives income. The amount is > 0. original_type is the Category cell or "Purchase"/"Payment". The category comes from the description alone. The date is ISO |
| `CsvParser.CapitalOneRecordSkipped` | app/csv_parser.py:193-226 | a row is skipped exactly when a cell is missing, a money cell does not parse, neither debit nor credit is positive, or the date does not parse |
| `CsvParser.ParseCsv` | app/csv_parser.py:253-287 | the dispatcher returns what the specification function `ParsedCsv` gives |
| `CsvParser.ParsedCsvErr` | app/csv_parser.py:263-274 | the call fails exactly when the bank type pins no parser and detection finds no layout, with the unrecognized-format message |
| `CsvParser.ParsedCsvWellFormed` | app/csv_parser.py:263-284 | it returns the chosen format and the records of that format's parser, in file order, each with an ISO date, amount ≥ 0 (> 0 for Capital One), empty description and a canonical category |
| `CsvParser.SofiCsvWellFormed` | app/csv_parser.py:129-172 | every SoFi record comes from an accepted row, in file order, with an ISO date, amount ≥ 0, empty description and a canonical category |
| `CsvParser.CapitalOneCsvWellFormed` | app/csv_parser.py:185-228 | every Capital One record comes from an accepted row, in file order, with an ISO date, amount > 0, empty description and a canonical category |
| `CsvParser.SofiWithoutStatusColumnYieldsNothing` | app/csv_parser.py:236-244 | a file detected as SoFi whose rows have no exact "Status" column yields no transactions |
| `CsvParser.HeaderWithoutStatusYieldsNothing` | app/csv_parser.py:135-139 | a DictReader table detected as SoFi whose header has no exact "Status" name (such as " Status ") yields no transactions |
| `Detection.NormalizedHeadersShape` | app/csv_parser.py:238 | one name per header, in header order, each in lower case with no whitespace at either end |
| `Detection.DetectUnknown` | app/csv_parser.py:236-250 | an empty file, an empty header, or one with neither name set is "unknown" |
| `Detection.DetectByNames` | app/csv_parser.py:238-250 | only the set of stripped, lower-cased names matters, not their order or repetition |
| `Detection.DetectSofiFirst` | app/csv_parser.py:242-244 | a header with the names of both layouts is SoFi |
| `Detection.DetectIgnoresCase` | app/csv_parser.py:238 | header letter case does not change the detected format |
| `Detection.SofiExportDetected` | app/csv_parser.py:242-244 | the SoFi export header is detected as "sofi" |
| `Detection.CapitalOneExportDetected` | app/csv_parser.py:246-248 | the Capital One export header is detected as "capital_one" |

## Left out

- The web API, the database layer, the migration script and authentication are not part of
  this model.
- CSV tokenization (`csv.DictReader` over `StringIO`: quoting, line endings) is a library. The
  model starts from the reader's field names and its per-row dictionaries;
  `CsvParser.ReaderShaped` says which tables the reader can produce. The extra cells of a row
  longer than the header, which the reader files under the key `None`, are not modelled.
- Python `float` precision: amounts are exact reals. `float()` spellings such as "inf", "nan"
  and digits with underscores are rejected rather than modelled.
- `datetime.strptime` beyond the `%m`, `%d`, `%Y` and `%y` directives of the five formats is
  not modelled.
- Characters outside ASCII are treated as uncased non-space characters. Unicode letter case and
  whitespace rules are not modelled.
- The fallback definitions used when `constants` cannot be imported
  (app/csv_parser.py:12-42) are not modelled. The printed error messages are not modelled.
- Errors of the CSV reader itself are left out together with CSV tokenization. The row loops
  (app/csv_parser.py:129 and 185) sit outside the per-row `try`, so a `csv.Error` (a bare
  carriage return inside an unquoted field, a field over the size limit) escapes the parser, and
  `parse_csv` re-raises it as ValueError("Error parsing CSV: …") (app/csv_parser.py:286-287).
  The model starts from a table the reader has already produced, so it has no such path.
- Dates.IsoText: always writes the year in four digits ("0999-01-01"). The model follows the
  zero-padded `%Y` output of current CPython; older CPython on Linux passes `%Y` to the C
  library's `strftime`, which writes years before 1000 without padding ("999-01-01").
- The detected format is reported as the datatype `CsvFormat`.
  `Detection.FormatName` gives its "sofi" / "capital_one" / "unknown" spelling.
