# Bill-text extraction of the TNB electricity-bill dashboard

This project models the text-extraction core of a Flask dashboard for Malaysian
TNB electricity bills. The bill's PDF text goes in. The core does two kinds of work.

- **Block isolation.** `re.search(start.*?end, text, re.DOTALL)` cuts three blocks
  out of the text: the monthly-charges table, the detailed-charges table and the
  meter readings. Each block runs from the first start marker to the first end
  marker after it. When no block exists the result is a fixed sentinel string, or
  `None` in pro7.py.
- **Field parsing.** Each block is scanned Python-`findall`/`finditer`/`search`
  style:
  - month/charge pairs, where one variant also accepts the charge first;
  - the six detailed-charge fields, found by labelled searches, or line by line
    in pro10.py;
  - meter rows, after a unit rewrite, with comma-grouped readings read as integers.

Python's regular expressions are modelled without a regex engine. Each pattern is a
*matcher*: a function that looks at the start of a string and returns the match
length and the captured groups (`Scan.Hit`). `Scan.FindAll` and `Scan.Search` then
scan the suffixes of the text as Python scans positions. None of the patterns uses
anchors or look-behind, so the two scans agree. Each matcher returns Python's
first success in backtracking order. A maximal greedy run is used where no shorter
run can succeed; the comment on each matcher says why. Backtracking is modelled
step by step in three places:
- the charge-first alternative, because an `R` or `M` may begin a month;
- the detailed-charge number groups, because one digit run can be split between
  two groups;
- the lazy `\(.*?\)`, which tries each later `)` on the line in turn.

Modules follow the structure of the program:

- `Lex`: character classes, including the full set of characters Python's `\s` and
  `str.strip()` treat as whitespace. Also `splitlines`, `join`,
  `replace(c, "")`, `strip()` and decimal values.
- `Scan`: `findall`/`finditer`/`search` over a matcher, and their laws.
- `Blocks`: one block search, parameterised by a start literal and an end
  recogniser, used for every variant's block extractor.
- `Monthly`, `MonthlyText`: the month/charge parsers, and the proof that bill-shaped
  lines are read back entry by entry. An entry is a month and a charge in either
  order, optionally with the "(BS)" marker between them (month first) or in front
  (charge first).
- `Detailed`: the labelled-search detailed-charges extractor of
  app-version-dropdown-menu/app.py and pro16.py.
- `Lines`: the line-by-line extractor of pro10.py.
- `Meter`: the unit rewrite, the row pattern and the conversion of each row.
- `Upload`: the dashboard's store-or-reject decision, and the isolated-text file
  that pro5.py writes, as pure functions.

The imperative extractors are `method`s with loops:
- `Monthly.CollectPairs`, `Monthly.ExtractMonthsAndChargesMonthFirst`;
- `Detailed.ExtractDetailedChargesData`, `Lines.ExtractDetailedChargesData`;
- `Meter.SaveMeterReadingRows`.

Each is proved against a specification function. The properties the program
promises are then proved about those functions.

Where the code and its design description differ, the model follows the code:

- The dashboard stores a document whenever the months and the charges are both
  non-empty (app.py:127). It does not also require another section.
- The stored meter number keeps the leading `M` and the whitespace after it
  (`(M\s+\S+)` at app-version-dropdown-menu/app.py:218, stripped only at its ends).
- The unit of a meter row is any `\w+` run, not a closed set of units.
- No extractor signals malformed input. A block that is missing yields its
  sentinel, and the sentinel then parses to empty results.
- A usage or ICPT line showing only two amounts after the label still matches
  the three-group pattern. Python backtracks and splits the last amount's final
  character off as the third group (`Detailed.SplitLastAmount`,
  `Detailed.FirstOfThree`).

## Model

| member | source | states |
|---|---|---|
| Scan.FindAllFirst | app-version-dropdown-menu/app.py:61 | findall's first result is the match at the leftmost matching position, and the rest come from behind that match (leftmost, non-overlapping) |
| Scan.SkipToFirst | app-version-dropdown-menu/app.py:61 | positions before the first one where the pattern matches contribute nothing to findall |
| Scan.FindAllNone | app-version-dropdown-menu/app.py:61 | where the pattern matches at no position, findall returns nothing |
| Scan.SearchIsFirstFound | pro10.py:46-55 | `re.search` fails exactly when findall finds nothing, and otherwise returns findall's first result |
| Scan.SearchIsMatch | app-version-dropdown-menu/app.py:131-133 | whatever search returns is a match of the pattern at some position of the text |
| Scan.SearchFinds | app-version-dropdown-menu/app.py:131-133 | if the pattern matches anywhere, search succeeds |
| Blocks.FirstEnd | app-version-dropdown-menu/app.py:49-51 | the lazy `.*?`: the result is the first position from which the end marker matches, and it is None only if the marker matches nowhere after that point |
| Blocks.Locate | app-version-dropdown-menu/app.py:49-51 | the span is found exactly when some start occurrence has an end match after it; it begins at the first such occurrence and ends at its first end match |
| Blocks.FindBlock | pro7.py:27-30 | the block is None exactly when no start has a later end match; otherwise it is the first block, a substring of the text beginning with the start marker |
| Blocks.FindInner | app-version-dropdown-menu/app.py:194-199 | `group(1)` of `start(.*?)end`: found exactly when a block exists, and then the text strictly between the markers of the first block |
| Blocks.FirstSpanUnique | app-version-dropdown-menu/app.py:49-51 | the first-start, first-end description picks out a single span |
| Blocks.BlockTail | pro16.py:70-74 | a found block ends with the characters the end marker matched |
| Blocks.EndNeedsPhrase | app.py:38-41 | when every end match contains a phrase and the text lacks that phrase, no block exists |
| Blocks.MonthlyChargesBlock | app-version-dropdown-menu/app.py:46-54 | the result is the sentinel "No matching charges section found." exactly when no "Caj Elektrik Anda Bagi Tempoh 6 Bulan" has a later `\d+\s?Purata Caj Bulanan`; otherwise it is the first such block and begins with the start marker |
| Blocks.MonthlyChargesBlockAmp | app.py:36-44 | the same, with the end marker `\d+\s?Purata Caj Bulanan &` (also pro5.py:20-28) |
| Blocks.AmpEndRequired | app.py:38-44 | a bill lacking "Purata Caj Bulanan &" gets the sentinel, even if it has "Purata Caj Bulanan" |
| Blocks.DetailedChargesBlock | pro16.py:68-83 | the sentinel "No matching detailed charges section found." exactly when no "Keterangan Tanpa ST Dengan ST Jumlah" has a later `Caj Semasa RM \d+\.\d{2}`; otherwise the first such block, beginning with the start marker (also app.py:61-69) |
| Blocks.MonthlyChargesBlockKWh | pro7.py:22-30 | None exactly when no start marker has a later `\d+\s?kWh`; otherwise the first block, a substring of the text beginning with the start marker |
| Blocks.BillDetailsBlock | pro7.py:33-45 | None exactly when no "Keterangan Tanpa ST Dengan ST Jumlah" has a later "kVARh"; otherwise the first block, a substring of the text beginning with the start marker |
| Blocks.KVARhEnd | pro7.py:39-40 | the end marker `kVARh` matches exactly where "kVARh" begins, and takes its five characters |
| Blocks.MeterEnd | app-version-dropdown-menu/app.py:191 | `\s*PERBANKAN INTERNET` matches wherever "PERBANKAN INTERNET" begins, taking its 18 characters, and never reaches past the text |
| Blocks.BillDetailsEndsAtFirstKVARh | pro7.py:39-44 | the bill-details block ends in "kVARh", and from the end of the start marker on that is the only "kVARh" in it |
| Blocks.OrFallback | pro7.py:91-94 | a missing or empty block gives the fallback message; a non-empty block is kept |
| Blocks.Pro7Texts | pro7.py:88-94 | each of the two saved texts is its fallback message exactly when its block is absent, and otherwise the block itself |
| Blocks.FallbackTells | pro7.py:91-94 | when a found block starts with a character the fallback message does not start with, the saved text is the fallback exactly when the block is missing, and otherwise the block |
| Blocks.MeterReadingBlock | app-version-dropdown-menu/app.py:189-210 | without a block the result is "no matching charges section found."; with one it is the stripped text between "Maklumat Meter" and the first later `\s*PERBANKAN INTERNET`; it neither starts nor ends with whitespace (also pro16.py:191-212) |
| Blocks.MeterBlockExcludesEndMarker | app-version-dropdown-menu/app.py:194-199 | the text between the meter markers never contains "PERBANKAN INTERNET" |
| Monthly.GapAgree | app-version-dropdown-menu/app.py:60 | the two written forms of the `(BS)` gap, `\s*(?:\(BS\))?\s*` and `(?:\s*\(BS\))?\s*`, take the same characters |
| Monthly.MonthFirst | pro16.py:54 | a match of `([A-Z]{3}-\d{2})\s*(?:\(BS\))?\s*([RM0-9,\.]+)` consumes input and captures a month label and a charge token |
| Monthly.ChargeFirst | app-version-dropdown-menu/app.py:60 | a match of the charge-first alternative captures a charge token and a month label, the month being the last six characters matched |
| Monthly.BothOrders | app-version-dropdown-menu/app.py:60 | every tuple of the two-alternative pattern holds a month and a charge in one of the two places and empty strings in the other |
| Monthly.BothOrdersWellFormed | app-version-dropdown-menu/app.py:61 | every tuple findall returns for the two-order pattern is well formed |
| Monthly.CollectPairs | app-version-dropdown-menu/app.py:63-71 | the loop gives equal-length lists, and pair i is the month and charge of tuple i in whichever order it was written |
| Monthly.ExtractMonthsAndCharges | app-version-dropdown-menu/app.py:57-73 | month i and charge i come from the i-th non-overlapping match in text order; the lists have equal length; each month is `[A-Z]{3}-\d{2}` and each charge a non-empty `[RM0-9,.]` run |
| Monthly.MonthFirstWellFormed | pro16.py:54-55 | every pair the month-first findall returns is a month and a charge |
| Monthly.ExtractMonthsAndChargesMonthFirst | pro16.py:51-63 | pair i is the i-th match of the month-first pattern; the lists have equal length and hold well-formed months and charges (also app.py:47-58, pro5.py:31-45) |
| Monthly.NoBSInTokens | pro5.py:36 | "(BS)" never appears in a returned month or charge |
| Monthly.NoDashNoPairs | pro16.py:54 | a text without "-" yields no pair with either pattern |
| Monthly.SentinelNoPairs | app-version-dropdown-menu/app.py:54 | the monthly sentinel parses to no pairs with either pattern |
| MonthlyText.BothOrdersAtEntry | app-version-dropdown-menu/app.py:60 | the two-order pattern matches a month-first or charge-first entry whole, with the groups of its own alternative |
| Monthly.AlternativesAgree | app-version-dropdown-menu/app.py:60 | the month-first alternative of the two-order pattern takes the same match as pro16.py's month-first pattern, on every text |
| MonthlyText.MonthFirstMarkedEntry | pro16.py:54 | `JAN-24 (BS) RM120.50`-shaped text: the month-first pattern skips the marker and captures the month and the charge, consuming all of it |
| MonthlyText.ChargeFirstMarkedEntry | app-version-dropdown-menu/app.py:60 | `(BS) RM120.50 JAN-24`-shaped text: the charge-first alternative skips the leading marker and captures the charge and the month, consuming all of it |
| MonthlyText.NothingBeforeEntry | pro16.py:54 | nothing matches at the space in front of a month-first entry |
| MonthlyText.NothingBeforeText | app-version-dropdown-menu/app.py:60 | the two-order pattern matches nothing at the space in front of an entry that begins with a month or with the marker |
| MonthlyText.LineParses | app-version-dropdown-menu/app.py:60-61 | a line of entries in either order, separated by single spaces, is read back by findall as exactly their tuples, in order |
| MonthlyText.LineMonthsAndCharges | app-version-dropdown-menu/app.py:63-71 | on such a line the extractor's month i and charge i are entry i's month and charge, whichever order it was written in |
| MonthlyText.LineParsesMonthFirst | pro16.py:54-60 | a line of month-first entries is read back by the month-first pattern as exactly their pairs, in order |
| MonthlyText.Example | pro16.py:51-63 | "JAN-24 RM120.50 FEB-24 RM135.00" gives the pairs (JAN-24, RM120.50) and (FEB-24, RM135.00) |
| MonthlyText.MarkedMonthFirstExample | pro16.py:54 | "JAN-24 (BS) RM120.50" gives the pair (JAN-24, RM120.50) with either pattern |
| MonthlyText.MarkedChargeFirstExample | app-version-dropdown-menu/app.py:60 | "(BS) RM120.50 JAN-24" gives one tuple, in the charge-first groups |
| Upload.AppUpload | app.py:118-137 | app.py's upload stores a document exactly when the month-first parser finds a pair in the `&`-terminated block; it holds the username and pair i as month i and charge i |
| Upload.DropdownUpload | app-version-dropdown-menu/app.py:304-322 | the dropdown app's upload stores a document exactly when the two-order parser finds a tuple; it holds the username and, as month i and charge i, the month and charge of tuple i |
| Upload.StoreDecision | app.py:126-137 | a document is built exactly when both lists are non-empty, and it holds the username and exactly the parser's lists |
| Upload.NoBlockNoDocument | app.py:121-137 | a bill without the `&`-terminated monthly block stores nothing |
| Upload.StoredDocumentShape | app.py:124-133 | a stored document has as many months as charges, all well formed, paired as the month-first pattern found them |
| Upload.DropdownNoBlockNoDocument | app-version-dropdown-menu/app.py:307-322 | in the dropdown app, a bill without the monthly block stores nothing |
| Upload.DropdownStoredDocumentShape | app-version-dropdown-menu/app.py:310-319 | a stored document has equal-length lists of well-formed months and charges, taken from the two-order tuples |
| Upload.IsolatedText | pro5.py:110-113 | when no month or charge holds a line break, read back line by line, the file is "Months:", the months joined by ", ", "Charges:" and the charges joined by ", " |
| Upload.Pro5File | pro5.py:101-113 | the lines of pro5.py's file are the two headings and the months and charges the month-first parser found in the block |
| Upload.Pro5FileWithoutBlock | pro5.py:28 | without the monthly block the file holds the two headings and two empty lines |
| Detailed.Nums | app-version-dropdown-menu/app.py:102 | n repetitions of `\s*(-?\s*[\d.,]+)` in Python's backtracking order: a match has n groups, each an optional minus sign, whitespace and a non-empty amount |
| Detailed.TryLengths | app-version-dropdown-menu/app.py:102 | the first group tried with each shorter digit run in turn: any result has n well-formed groups and stays within the input |
| Detailed.TryCloses | app-version-dropdown-menu/app.py:106 | the lazy `.*?\)` trying each later `)` of the line: a result has n well-formed groups |
| Detailed.Labelled | app-version-dropdown-menu/app.py:105-108 | `<label>\s*\(.*?\)\s*RM` and n numbers: a match begins with the label and carries n well-formed groups |
| Detailed.UsageMatch | app-version-dropdown-menu/app.py:105-108 | a usage match begins with "Jumlah Penggunaan Anda" and carries three groups |
| Detailed.IcptMatch | app-version-dropdown-menu/app.py:114-117 | an ICPT match begins with its label and carries three groups |
| Detailed.KwtbbMatch | app-version-dropdown-menu/app.py:123-126 | a KWTBB match begins with its label and carries one group |
| Detailed.CurrentMatch | app-version-dropdown-menu/app.py:131-133 | a current-charge match begins with "Caj Semasa" and carries one group |
| Detailed.ExtractDetailedChargesData | app-version-dropdown-menu/app.py:93-144 | the method's six fields are those of the specification DetailedData: each field group comes from its own search, and fields default to "" (also pro16.py:89-140) |
| Detailed.CleanShape | app-version-dropdown-menu/app.py:109-111 | `.replace(" ", "")` keeps the sign and the digits and drops only the plain spaces of the whitespace; the result is never empty |
| Detailed.SignJoinsDigits | app-version-dropdown-menu/app.py:109 | "- 12.34" becomes "-12.34" |
| Detailed.FieldsFound | app-version-dropdown-menu/app.py:93-144 | each field is non-empty exactly when its own search succeeds, so a missing line leaves only its own fields empty |
| Detailed.SentinelGivesEmpty | pro16.py:83 | the detailed sentinel yields all six fields empty |
| Detailed.CurrentAfterLead | pro16.py:127-129 | "Caj Semasa RM " followed by an amount character matches the current-charge pattern |
| Detailed.FoundBlockHasCurrentCharge | pro16.py:70-131 | any block the detailed-block search returns yields a non-empty current charge |
| Detailed.SignedAmount | app-version-dropdown-menu/app.py:102-111 | "- " followed by an amount matches one group with its minus sign, the space and the whole amount, and the cleaned field is "-" and the amount |
| Detailed.SplitLastAmount | app-version-dropdown-menu/app.py:105-108 | one space and one amount of two or more characters, against two groups, match by splitting off the amount's last character |
| Detailed.FirstOfThree | app-version-dropdown-menu/app.py:105-111 | "a b" against three groups backtracks: a stays whole as the first group, and b is split between the second and third |
| Lines.RmAmount | pro10.py:41 | a match of `RM\s*([\d.,]+)` captures a non-empty run of digits, '.' and ',' |
| Lines.Tokens | pro10.py:41 | every token `re.findall` returns for the pattern is such a run |
| Lines.ExtractDetailedChargesData | pro10.py:28-66 | the loop's six fields are the fold ApplyLines of the line step over `splitlines()`, starting from all "" |
| Lines.BranchIsFirstLabel | pro10.py:40-54 | the `if`/`elif` chain takes the first of the four labels the line contains, in the chain's order, and none when it holds none |
| Lines.LineStep | pro10.py:39-57 | a line sets the group it qualifies for (its branch, with enough amounts) and leaves every other group unchanged; a line holding none of the four labels changes nothing |
| Lines.LastWins | pro10.py:38-57 | a group holds what the last line qualifying for it set |
| Lines.NeverSet | pro10.py:30-35 | a group no line qualifies for keeps its "" defaults |
| Lines.FieldsAreAmounts | pro10.py:41-57 | every field is "" or a run of digits, '.' and ',' |
| Lines.NoMinusSign | pro10.py:41-55 | no field ever holds a minus sign |
| Meter.Collapse | app-version-dropdown-menu/app.py:215 | the rewrite never lengthens the text |
| Meter.NoSaluranUnchanged | pro16.py:218 | text without "Saluran" passes the rewrite unchanged |
| Meter.CollapseUnit | pro16.py:218 | "kWhSaluran", "kWSaluran" and "kVARhSaluran" become the bare unit, and the rewrite continues behind it |
| Meter.CommaGroups | pro16.py:221 | the greedy `(?:,\d{3})*` run: groups of three digits, and the text begins with them written with commas |
| Meter.ReadingAt | pro16.py:221 | a reading is a valid comma-grouped numeral, the text begins with its rendering, and whitespace follows it |
| Meter.NumeralValue | pro16.py:228-230 | `int(reading.replace(",", ""))` is the positional value of the numeral's groups |
| Meter.GroupedExamples | pro16.py:228-230 | "12,345" is read as 12345, and "1,234,567" as 1234567 |
| Meter.MeterIdAt | app-version-dropdown-menu/app.py:218 | the meter id is "M", whitespace, then a non-space run, and whitespace follows it |
| Meter.UsageUnitAt | app-version-dropdown-menu/app.py:218 | `(\d+)\s+(\w+)` captures a non-empty digit run and a non-empty word |
| Meter.RowMatch | app-version-dropdown-menu/app.py:218 | a row match consumes input, starts at "M", and captures a valid raw row |
| Meter.RowMatches | app-version-dropdown-menu/app.py:215-224 | every row finditer finds in the rewritten text is a valid raw row |
| Meter.ToRow | app-version-dropdown-menu/app.py:225-230 | the converted row keeps the meter id and the unit unchanged by `strip()`, its readings are the numerals' values, and its usage is `int()` of the usage digits, their decimal value |
| Meter.SaveMeterReadingRows | pro16.py:216-235 | the loop's rows are the matches, each converted by ToRow, in text order (also app-version-dropdown-menu/app.py:213-232) |
| Meter.ToRowsAt | app-version-dropdown-menu/app.py:224-232 | row k of the converted list is the conversion of match k |
| Meter.RowsInOrder | app-version-dropdown-menu/app.py:224-232 | there is one row per finditer match, and row k is match k converted |
| Meter.SentinelNoRows | pro16.py:203 | the meter sentinel "no matching charges section found." yields no rows |
| Meter.NoBlockNoRows | app-version-dropdown-menu/app.py:200-224 | a bill without a meter block yields no meter rows |

## Left out

- Flask routes, sessions, flash messages, templates and redirects are web plumbing; the model keeps only the pure decision they make (`Upload.StoreDecision`).
- MongoDB inserts and queries are external storage; the model returns the document that would be inserted.
- PDF text extraction (`PdfReader`) is a foreign library; the bill's text is the input of every function.
- Writing files is I/O and is not modelled: the detailed block's .txt file, `parse_text_to_csv`, the meter CSV writer and the monthly and detailed CSVs of `electric`. pro5.py's isolated-text file is modelled as the string it writes (`Upload.Pro5File`).
- `combine_csv_files` and the CSV re-read with pandas are library behaviour.
- The float conversions, averages and maximum in `test` are floating-point numerics.
- The `malaya` tokenizer of pro16.py is a foreign NLP library.
- The forecasting `subprocess` call and the login and registration lookups are outside the extraction core.
- The pro10.py route calls an `extract_detailed_charges_block` the file does not define, so only its `extract_detailed_charges_data` is modelled.
- The `print` calls of the extractors produce console output only.
- `\d` and `\w` are modelled as their ASCII classes. Python also matches other Unicode digits and letters with them.
- Detailed.SplitLastAmount: the two-amount split is proved for the number groups behind "RM". It is not composed into a whole-line search for the usage and ICPT labels.
- The one-row-per-document tabular export and the CSV column layout of the meter rows are file formats and left out. `Meter.MeterRow` holds the five values of a row.
