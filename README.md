# Builder fee aggregation, modelled in Dafny

This project models the builder-fee endpoint `api/builders.ts`. The endpoint is asked for a set of
builders, given as a comma-separated `address[:label]` list in the `builders` query parameter or in
the `BUILDER_ADDRESSES` environment variable. For each builder it fetches the archived fill report
of today and of yesterday (UTC), sums the fee column of every row of both reports, ranks the
builders by that 24-hour fee, keeps the first ten and reports their total.

Modules, one per stage of the handler:

- `Wrappers`: `Option` and `Result`.
- `Text`: the JavaScript string built-ins the handler relies on.
  - `trim`, with the full WhiteSpace and LineTerminator set.
  - `split` on one character.
  - `toLowerCase` on ASCII letters.
  - `startsWith`, `padStart`, and `String` of an integer.
- `Identity`:
  - `parseBuildersParam`, as trim, skip blank, parse item, drop failures;
  - `getConfiguredBuilders`, which chooses between the query and the environment.
- `Calendar`: UTC days, `yyyymmdd`, and the "yesterday" that `Date.UTC(y, m, d - 1)` yields, including its reading of years 0 to 99 as 1900 to 1999.
- `Fees`:
  - the fee column priority of `sumFees` and its row loop;
  - the archive URL;
  - the outcome mapping of `sumForDate`.
- `Ranking`:
  - the stable descending sort, as an in-place insertion sort on an array proved equal to a functional insertion sort;
  - the cut to ten and the total.
- `Handler`: the request handler.
  - `Expected` says what it answers.
  - `Handle` is the method proved to answer it, with its `push` loop and the in-place sort.

The collaborators the code calls but does not implement are function-typed fields of `Fees.Externals`, given to the model as inputs:

- `fetch` of a URL;
- LZ4 decompression with UTF-8 decoding;
- the CSV parser;
- `Number`.

The environment variable and the current UTC date are parameters.

Behaviour of the code worth noting, which the model keeps:

- An exception from `fetch` itself is not inside the `try` of `sumForDate`, so it reaches the handler's `catch` and the answer is the 500 error. It does not count as an absent report.
- The default label is the first six characters of the address, not the whole address.
- The environment list is used whenever the list parsed from the query is empty. This includes a query whose items were all rejected, not only an absent or empty query.
- Addresses are checked only for the "0x" prefix and a length of 42; nothing checks that the rest is hexadecimal.

## Model

| member | source | states |
|---|---|---|
| Text.Trim | api/builders.ts:15 | the trimmed text neither starts nor ends with white space and is no longer than the input |
| Text.TrimUnique | api/builders.ts:15 | trimming `spaces + t + spaces`, where `t` has no white space at either end, gives exactly `t` |
| Text.TrimIdempotent | api/builders.ts:21 | trimming twice is trimming once, so a returned label is already trimmed |
| Text.TrimKeepsOut | api/builders.ts:18-21 | trimming never introduces a character, so a label taken from a ':'-free segment stays ':'-free |
| Text.ToLower | api/builders.ts:19 | same length; every character is the lower-case form of the input's character and no ASCII upper-case letter remains |
| Text.ToLowerSpaces | api/builders.ts:19 | lower-casing neither creates nor removes white space at any position |
| Text.StartsWith | api/builders.ts:20 | `startsWith` holds iff the prefix is no longer than the text and agrees with it character by character |
| Text.Split | api/builders.ts:14 | `split` returns at least one part and no part contains the separator |
| Text.SplitJoinsBack | api/builders.ts:14 | joining the parts with the separator gives back the input |
| Text.SplitJoin | api/builders.ts:14 | separator-free parts come back unchanged from splitting their join |
| Text.SplitWithoutSeparator | api/builders.ts:18 | a text without the separator splits into itself alone |
| Text.SplitAtFirst | api/builders.ts:18 | the first part ends at the first separator, and the rest is split on its own |
| Text.SplitFirstTwo | api/builders.ts:18 | with two separators, the first two parts are the texts before and between them |
| Text.NatToString | api/builders.ts:36-37 | `String(n)` is a non-empty digit string without a leading zero |
| Text.NatToStringValue | api/builders.ts:36-37 | the digit string reads back as `n` |
| Text.NatToStringLength4 | api/builders.ts:35 | a year from 1000 to 9999 is written with four digits |
| Text.IntToString | api/builders.ts:35-38 | `String(i)` reads back as `i`: digits for a non-negative integer, '-' then the digits of `-i` for a negative one |
| Text.PadStart | api/builders.ts:36-37 | the result has the target length (or the input's, when longer), ends with the input, and is filled on the left |
| Identity.NonBlank | api/builders.ts:21 | `s \|\| undefined`: absent exactly for the empty string, otherwise `s` itself |
| Identity.ParseItem | api/builders.ts:17-22 | an item is kept iff its trimmed lower-cased first ':'-segment starts with "0x" and has length 42; the address is that segment, canonical; a label is non-empty, trimmed and ':'-free |
| Identity.Kept | api/builders.ts:15-23 | an item contributes at most one builder, none iff blank after trimming or rejected by the parse; a kept one is exactly the parse of the trimmed item, and canonical |
| Identity.ParseItems | api/builders.ts:15-23 | no more builders than items |
| Identity.ParseItemsCanonical | api/builders.ts:18-23 | every parsed builder has a 42-character, "0x"-prefixed address with no upper-case letter |
| Identity.ParseItemsAppend | api/builders.ts:13-23 | parsing commutes with concatenating item lists, so input order is kept |
| Identity.ItemInPlace | api/builders.ts:13-23 | an item's contribution (none when blank or rejected) sits between those of the items before and after it |
| Identity.LabelIsSecondSegment | api/builders.ts:18-21 | the label is the trimmed second ':'-segment, absent when blank; text after a second ':' is ignored |
| Identity.OneColonLabel | api/builders.ts:18-21 | for the usual `address:label` item with one ':', the label is the trimmed text after it, absent when blank |
| Identity.AddressTrimmed | api/builders.ts:18-19 | a parsed address has no white space at either end |
| Identity.NoColonNoLabel | api/builders.ts:18-21 | an item without ':' gets no label |
| Identity.ParseBuildersParam | api/builders.ts:11-24 | an absent or empty parameter gives no builders; never more builders than comma-separated items; every address canonical and with no white space at either end |
| Identity.ParseItemsTrimmed | api/builders.ts:15-23 | every parsed builder's address has no white space at either end |
| Identity.ConfiguredBuilders | api/builders.ts:26-32 | the query list wins whenever it is non-empty, otherwise the environment list; empty iff both are empty |
| Calendar.PreviousDay | api/builders.ts:99 | the day before a valid day is a valid, earlier day |
| Calendar.PreviousDayIsImmediate | api/builders.ts:99 | the previous day of a valid day is valid, earlier, has the day as its next day, and no valid day lies between them |
| Calendar.NextDayIsImmediate | api/builders.ts:99 | the next day of a valid day is valid, later, and its previous day is the day itself |
| Calendar.UtcYear | api/builders.ts:99 | `Date.UTC` reads years 0 to 99 as 1900 to 1999 and keeps every other year |
| Calendar.Yesterday | api/builders.ts:99 | a valid day gives a valid day; for years outside 0 to 99 it is exactly the previous calendar day |
| Calendar.LeapYearShift | api/builders.ts:99 | years 1 to 99 and their 1900-shifted years agree on being leap years |
| Calendar.YesterdayOfEarlyYear | api/builders.ts:99 | for a current year from 1 to 99, the "yesterday" is the previous calendar day with 1900 added to its year |
| Calendar.YesterdayOfTwoDigitYear | api/builders.ts:99 | 1 March of year 50 gives 28 February 1950 |
| Calendar.TwoDigits | api/builders.ts:36-37 | a month or a day padded to two places is two digits reading back as its value |
| Calendar.Yyyymmdd | api/builders.ts:34-38 | for a valid day, whatever the year, the last four characters are digits reading back as the month and the day |
| Calendar.MonthDayTail | api/builders.ts:36-37 | after any year text, the padded month and day are the last four characters and read back as the month and the day |
| Calendar.YyyymmddRoundTrip | api/builders.ts:34-38 | for a four-digit year the day string is eight digits and reads back as the same day |
| Calendar.YyyymmddInjective | api/builders.ts:34-38 | different four-digit-year days have different day strings |
| Calendar.ReportWindow | api/builders.ts:98-99 | the window holds exactly two day strings; `ReportWindowConsecutive` says which days they name |
| Calendar.ReportWindowConsecutive | api/builders.ts:98-99 | the window's strings read back as the day and the day immediately before it, and they differ |
| Fees.FirstPresent | api/builders.ts:57-61 | the `??` chain yields the cell of the first column the row has, and nothing iff it has none |
| Fees.RowFee | api/builders.ts:57-63 | a row without fee columns adds 0; otherwise the number in the first present column, 0 when it is not a number |
| Fees.RowsTotal | api/builders.ts:55-64 | the sum of the row fees is never negative when no row's fee is |
| Fees.RowsTotalAppend | api/builders.ts:55-64 | the sum over two runs of rows is the sum of their sums |
| Fees.RowsTotalOfOneColumn | api/builders.ts:55-64 | when every row has candidate `k` and none of the candidates before it, the total is that column's sum, whatever later candidates the rows have |
| Fees.SumFees | api/builders.ts:52-66 | empty text is 0 without parsing; a parser exception gives no sum; otherwise the loop's sum equals the sum of the row fees |
| Fees.ReportUrlParts | api/builders.ts:69 | the URL is the archive base, the address, '/', the day and `.csv.lz4`, in that order |
| Fees.ReportUrlInjective | api/builders.ts:69 | distinct (address, day) pairs give distinct report URLs for two addresses of the same length (every accepted address), or addresses without '/' |
| Fees.DayFee | api/builders.ts:68-78 | a day's sum fails exactly when `fetch` throws, with its message; a non-ok response, a failed decompression, an empty text or a parser exception give 0; a parsed body gives the sum of its row fees |
| Fees.SumForDate | api/builders.ts:68-78 | the method's result is `DayFee`, so every outcome of the fetch, the decompression and the parse is as `DayFee` states |
| Ranking.Insert | api/builders.ts:107 | insertion lengthens the list by one; `InsertIndex` gives each position's entry |
| Ranking.InsertIndex | api/builders.ts:107 | each entry of the result is the old entry before the insertion point, the new entry at it, and the old entry one place back after it |
| Ranking.SortDesc | api/builders.ts:107 | the sort keeps the length; order, contents and stability are stated by the `SortDesc…` lemmas |
| Ranking.TotalFee | api/builders.ts:109 | the `reduce` total is never negative when no fee is |
| Ranking.InsertPos | api/builders.ts:107 | the insertion point follows exactly the leading entries with a fee at least the new one's |
| Ranking.InsertPermutes | api/builders.ts:107 | insertion adds exactly the new entry |
| Ranking.InsertSorted | api/builders.ts:107 | insertion into a list sorted highest first keeps it sorted |
| Ranking.SortDescSorted | api/builders.ts:107 | the sort's result is ordered by fee, highest first |
| Ranking.SortDescPermutes | api/builders.ts:107 | the sort's result is a permutation of its input |
| Ranking.InsertStable | api/builders.ts:107 | in a sorted list, a new entry goes behind every entry of the same fee |
| Ranking.SortDescStable | api/builders.ts:107 | for every fee value, the entries with that fee keep their input order |
| Ranking.InsertTotal | api/builders.ts:107 | insertion adds the new entry's fee to the total |
| Ranking.SortDescTotal | api/builders.ts:107 | sorting keeps the total of all fees |
| Ranking.SortInPlace | api/builders.ts:107 | the in-place sort leaves the array equal to the stable descending sort of its old contents |
| Ranking.ShiftRight | api/builders.ts:107 | one insertion step places the entry after the prefix entries with at least its fee and shifts the rest right |
| Ranking.SortStep | api/builders.ts:107 | one insertion step extends the sorted prefix by the next entry |
| Ranking.InsertionPoint | api/builders.ts:107 | where the shifting stops in a sorted run is where the functional insertion puts the entry |
| Ranking.InsertPosAt | api/builders.ts:107 | the insertion point is the first entry with a lower fee, or the end |
| Ranking.Top | api/builders.ts:108 | `slice(0, 10)` is the prefix of the list of length min(10, n) |
| Ranking.TopKeepsHighest | api/builders.ts:107-108 | the kept entries are sorted, at most ten, a prefix of the sorted list, and none has a lower fee than a dropped one |
| Ranking.TopTotal | api/builders.ts:107-109 | the kept total plus the dropped total is the total over every builder |
| Handler.DisplayLabel | api/builders.ts:104 | a non-empty given label is used; otherwise the first six characters of the address, never empty for a canonical address |
| Handler.BuilderEntry | api/builders.ts:103-104 | a builder's entry fails iff one of its two fetches throws; otherwise its address, its label and the sum of both day sums |
| Handler.Summaries | api/builders.ts:101-105 | a successful loop has one entry per builder |
| Handler.SummariesStep | api/builders.ts:101-105 | one more builder appends its entry, or stops the loop with its failure |
| Handler.Ranked | api/builders.ts:107-109 | the ranked report has no note, min(10, n) entries and their total |
| Handler.Expected | api/builders.ts:80-123 | with no builder configured, the note report; a server error only when some builder is configured; otherwise no note and at most ten entries |
| Handler.FailureStays | api/builders.ts:101-105 | a failure at some builder ends the loop with that failure |
| Handler.SummariesSucceed | api/builders.ts:101-105 | the loop succeeds iff no fetch throws, and then yields one entry per builder, in order, with its label and the sum of both days |
| Handler.SummariesFailFirst | api/builders.ts:101-121 | a failed loop carries the message of the first builder whose fetch throws, today's report before yesterday's |
| Handler.UnconfiguredReport | api/builders.ts:85-95 | the zero-total, empty-list note comes back iff neither the query nor the environment gives a builder |
| Handler.ServerErrorWhenFetchThrows | api/builders.ts:117-121 | the 500 error comes back iff some configured builder has a throwing fetch for today or yesterday |
| Handler.RankedReport | api/builders.ts:107-109 | at most ten entries, sorted, drawn from the loop's, none beaten by a dropped one; with ten builders or fewer all are kept, the total is the total over all, and equal fees keep their order |
| Handler.EntryFor | api/builders.ts:102-104 | the two day sums of one builder give its `BuilderEntry` |
| Handler.CollectEntries | api/builders.ts:101-105 | the `push` loop yields the per-builder list, or the first failure |
| Handler.RankEntries | api/builders.ts:107-109 | sorting in place, slicing and the left-to-right `reduce` give the ranked report of the loop's entries |
| Handler.Handle | api/builders.ts:80-123 | the handler answers what `Expected` says for the query, the environment, the date and the collaborators |

## Left out

- Network I/O: `fetch` is an input function from URL to outcome, and the same URL gives the same outcome within one request. `fetchLz4` (api/builders.ts:41-45) is folded into that outcome: a thrown `arrayBuffer` is a `Throws` like a thrown `fetch`.
- LZ4 decompression and `TextDecoder` (api/builders.ts:47-50) are one input function that either yields text or throws.
- The CSV tokeniser is an input function that either yields rows (column name to cell) or throws.
- `Number` is an input function, with `None` for NaN. Fees are exact `real` numbers, so floating-point rounding of the sums is not modelled.
- `Promise.all` runs the two day sums in sequence; concurrency is not modelled.
- Handler.BuilderEntry: when both fetches of one builder throw, the model reports today's message. `Promise.all` rejects with whichever rejection comes first in time.
- The request object is not modelled:
  - `new URL(req.url)`, and its exception for a malformed URL;
  - the percent-decoding of the query parameter;
  - the response status, headers and JSON serialisation.
  
  The query parameter and the environment variable are `Option<string>` inputs. The response is the `Response` datatype.
- The error detail is the exception's message. `String(e?.message || e)` for an exception with an empty message is not modelled.
- String lengths count Unicode scalar values, not the UTF-16 code units that JavaScript's `length` and `slice` count. The two agree on all characters of the Basic Multilingual Plane.
- Text.ToLower: only ASCII letters are lower-cased. JavaScript's `toLowerCase` also lower-cases non-ASCII letters. An address containing one could then differ in the model.
- The `Date` object and the clock are not modelled. The current UTC day is a `Date(year, month, day)` parameter, and the range limit of JavaScript dates is not modelled.
- Calendar.YyyymmddRoundTrip: stated for four-digit years only. Other years give day strings of other lengths, which `ParseDayString` does not read.
- Calendar.ReportWindowConsecutive: stated for years 1001 to 9999, so that both days have four-digit years.
