# Financial Tracker: statement parser and chart engine, in Dafny

Financial Tracker reads a bank, wallet or UPI statement and draws its spending.
This project models its two computing stages and proves properties of them.

1. **The statement parser** in `server/server.js`, the `/api/parse` handler. It
   starts from the statement's text lines, already split, trimmed and with empty
   lines dropped. It produces three things:
   - `transactions`, each with a vendor, an amount, a category, a kind (Debit or
     Credit) and a date line;
   - `categoryTotals`;
   - `grandTotal`.

   Two recognisers run over the lines, one after the other:
   - **Format A** (wallet style): a line with a signed `Rs`/`INR` amount, followed
     by a "Paid to …" or "Added to …" line that names the vendor.
   - **Format B** (UPI style): a small state machine. A `currentVendor` slot is
     set by vendor lines and by direct-expense lines. It is consumed by the next
     line with an amount. A `#` tag on the line after the amount can override
     the category.

   Three helpers support them:
   - `detectCategory`, a first-match substring classifier over the 128-entry
     `categoryMap`;
   - `extractDate`, a backward scan for the nearest date-like line;
   - a totals pass that counts Debits only.
2. **The chart engine** in `client/src/components/Charts.jsx`, everything the
   `Charts` component computes before it renders:
   - `validTransactions`, the transactions whose date parses;
   - the granularity (day, week or month), chosen from the month span of the
     dates;
   - the pie data, `categoryTotals` and `adjustedPieData`, which widens small
     slices to a tenth of the total;
   - the bar series, `groupedTotals` and the zero-filled `filledTotals`;
   - the insights that come down to whole numbers.

How the model represents things:
- **Amounts** are whole paise (`nat`).
- **Dates** are day numbers counted from 1970-01-01. They have a proved
  Gregorian conversion, and the weekday is `(t + 4) % 7`.
- **JavaScript objects** used as dictionaries are insertion-ordered association
  lists with distinct keys (module `Assoc`). `(m[k] || 0) + a` is `Assoc.Add`.
- **Regular expressions** become hand-written scans. Each scan is proved to
  decide exactly the expression it stands for, and the captures it returns are
  proved to be those of the match that JavaScript reports. For the Format A
  amount that match is the only one at its index. For the Format B amount
  shorter matches exist, and the reported one is the greedy one.
- **The imperative parts of the source are methods with loop invariants.**
  These are the parser loops, `detectCategory`, `extractDate`, the totals pass,
  `getMonday`, the `forEach` that builds `groupedTotals`, and the three `while`
  walks that build `filledTotals`. The walks step a `Calendar.Date` object
  through `setDate`/`setMonth`. Each method is proved equal to a specification
  function, and the lemmas are stated about those functions.

What is proved, in short:
- the classifier returns the first match;
- the date scan returns the nearest date-like line;
- the exact conditions under which each format emits a transaction, and with
  what amount, kind and category;
- the order of the output;
- the category totals add up to the grand total, and credits change nothing;
- `normalizeCategory` is idempotent;
- both explicit date formats give the same calendar date;
- `getMonday` returns the Monday of the week;
- the granularity rule;
- the filled series has distinct keys, covers every valid date, and sums to the
  total, for dates that are calendar days (the day and week walks of the source
  with a time of day leave out the last bucket — the third row of "## Findings");
- the pie keeps every true value;
- the insights pick the first of equally good elements. The reduce in the
  source replaces its choice only on a strict improvement, and `sort` is stable;
- the median is read from a sorted permutation;
- weekend plus weekday spend is the total;
- growth is "N/A" exactly when the source shows it;
- the busiest weekday has the highest count;
- the category count is the number of distinct normalised categories.

`Charts.Render` is the component with the two corrections listed under
"## Findings":
- insight 5 is the sum of at most the two top slices, where the source throws on
  a pie with a single slice;
- the month walk starts at the first date's own month, where the source's
  `new Date(y, m, 1)` reads the years 0 to 99 as 1900 to 1999.

Its dates are calendar days. On those, the source's day and week walks reach
the last date's bucket. With a time of day they may not
(`Series.FillDaysClocked`, `Series.FillWeeksClocked`).

Its contract also states where its result is the source's:
- insight 5 as written fails exactly on a single-slice pie;
- otherwise it gives the same sum;
- the month walk as written reads the same buckets when neither date lies in the
  years 0 to 99.

## Model

| member | source | states |
|---|---|---|
| Text.SkipWhitespace | server/server.js:225 | `\s*` consumes exactly the maximal run of whitespace starting at the index |
| Text.SkipWhitespaceUnique | server/server.js:225 | a whitespace run ending at a non-whitespace character is the one `\s*` consumes |
| Text.DigitRunEnd | server/server.js:225 | the greedy `[\d,]+` run ends at the first character that is neither a digit nor a comma |
| Text.Trim | server/server.js:216 | `trim()` leaves a string that starts and ends with non-whitespace and is a slice of the input with only whitespace cut off |
| Text.TrimTrimmed | server/server.js:216 | trimming an already trimmed line changes nothing |
| Text.RemoveCommas | server/server.js:228 | every character of the result is a non-comma character of the input, the result is no longer than the input, and it is all digits when the input held only digits and commas |
| Text.RemoveCommasAppend | server/server.js:228 | `replace(/,/g, "")` works piece by piece: the result for `a + b` is the result for `a` followed by the result for `b`, so the surviving characters keep their order |
| Text.RemoveCommasNoComma | server/server.js:228 | a string without a comma is left unchanged |
| Text.RemoveCommasChar | server/server.js:228 | a lone comma is removed and any other single character is kept; with `RemoveCommasAppend` this fixes the result for every string |
| Text.DecimalValueTwoMore | server/server.js:228 | two more digits on the right multiply the decimal value by 100 and add their own value |
| Text.ToLowerHasNoUpper | server/server.js:186 | the lower-cased text holds no upper-case letter |
| Text.UpperCharNeverContained | server/server.js:188 | lower-cased text never contains a literal holding an upper-case letter |
| Text.MissingCharNotContained | server/server.js:188 | `includes(t)` fails when some character of `t` is missing from the text |
| Text.NatToStringValue | client/src/components/Charts.jsx:44-50 | reading back the digits of `String(n)` gives `n` |
| Text.IntToStringInjective | client/src/components/Charts.jsx:44-50 | different years print differently |
| Text.Pad2Injective | client/src/components/Charts.jsx:44-50 | `padStart(2, "0")` of different months or days differ |
| Amounts.MarkerEnd | server/server.js:225 | the marker is present exactly when `Rs` (any case) or, on wallet lines, `INR` starts there; after `Rs` it ends three characters on exactly when a `.` follows, otherwise two; `INR` ends three characters on |
| Amounts.FractionEnd | server/server.js:276 | the optional `(?:\.\d{1,2})?` is taken exactly when a point and a digit follow the run; it then covers the point and one or two digits, and stops after one only when no second digit follows |
| Amounts.AmountAt | server/server.js:225-276 | a match at an index starts with the sign at that index and has well-formed captures; Format A's fraction has exactly two digits |
| Amounts.FirstAmountFrom | server/server.js:225-276 | the leftmost index at or after a start where the pattern matches, with no match before it |
| Amounts.Amount | server/server.js:225-276 | `line.match(...)` gives the captures of a match at some index of the line, or `null` exactly when no index matches |
| Amounts.FractionPaise | server/server.js:279 | the paise are the decimal value of the fraction padded with zeros to two digits (one digit is tenths, two are hundredths), below 100 |
| Amounts.PaiseIsScaledDecimal | server/server.js:279 | the amount in paise is the decimal value of the comma-free digit run followed by the two-digit padded fraction: a hundred times what `parseFloat` reads from the comma-free capture, in both formats (server/server.js:228 as well) |
| Amounts.WalletPatternGivesAmountAt | server/server.js:225 | every way the Format A expression can match at an index gives the captures the scan computes |
| Amounts.AmountAtGivesWalletPattern | server/server.js:225 | every scan result is a match of the Format A expression |
| Amounts.WalletAmountAtIsPattern | server/server.js:225 | the scan finds a Format A amount at an index exactly when the regular expression matches there |
| Amounts.UpiGreedyGivesAmountAt | server/server.js:276 | the greedy match of the Format B expression at an index (whole digit run, fraction taken when a point and a digit follow, second digit taken when present) has the captures the scan computes |
| Amounts.UpiPatternWidens | server/server.js:276 | every match of the Format B expression at an index widens to the greedy match there |
| Amounts.AmountAtGivesUpiPattern | server/server.js:276 | every scan result for Format B is the greedy match of the expression at that index |
| Amounts.UpiAmountAtIsPattern | server/server.js:276 | the scan finds a Format B amount at an index exactly when the regular expression matches there |
| Categories.FirstKeyFrom | server/server.js:187-189 | the index of the first keyword at or after a start that occurs in the lower-cased vendor, no earlier one occurring |
| Categories.Classify | server/server.js:185-191 | the result is the label of the first keyword, in declaration order, that occurs in the lower-cased vendor, or "Miscellaneous" when none does |
| Categories.DetectIn | server/server.js:185-191 | the early-return `for…in` loop returns what `Classify` specifies |
| Categories.DetectCategory | server/server.js:185-191 | `detectCategory(vendor)` over `categoryMap` |
| Categories.ClassifyFirstMatch | server/server.js:187-189 | the first matching keyword decides the category |
| Categories.ClassifyNoMatch | server/server.js:190 | with no keyword in the vendor the category is "Miscellaneous" |
| Categories.ClassifyIsLabel | server/server.js:185-191 | every category is a label of the map or "Miscellaneous" |
| Categories.MixedCaseKeyNeverMatches | server/server.js:186-188 | a keyword holding an upper-case letter is never the first match |
| Categories.MixedCaseKeysOfCategoryMap | server/server.js:46-182 | `paytmMall`, `pizzaHut`, `tataPower`, `sunNxt`, `tataAig` and `iciciPrudential` never classify anything |
| Categories.RelianceFreshIsShopping | server/server.js:42-79 | "Reliance Fresh" is Shopping, because `reliance` comes before `reliancefresh` |
| Statement.IsDateLineIsPattern | server/server.js:196 | the date-line scan holds exactly when `/\d{1,2}\s+[A-Za-z]{3}/` matches somewhere in the line |
| Statement.NearestDateIndex | server/server.js:194-201 | the nearest date-like line at or above the index, with none in between; -1 when there is none |
| Statement.ExtractDate | server/server.js:194-201 | the backward loop returns the specified date line |
| Statement.DateForNearest | server/server.js:194-201 | the date is "" with no date-like line at or above the index, or the nearest such line at or above it |
| Statement.AddedToOtherKeepsLine | server/server.js:232-235 | an "Added to …" vendor line not going on with "wallet" keeps its whole text |
| Statement.WalletLine | server/server.js:223-257 | one iteration of the Format A loop yields the specified transaction, if any |
| Statement.ParseWalletFormat | server/server.js:222-259 | the Format A loop pushes each line's transaction in line order |
| Statement.WalletEntryWhen | server/server.js:225-231 | line `i` yields a transaction exactly when a next line exists, line `i` has a wallet amount and the next line starts with "Paid to" or "Added to" |
| Statement.LeftmostWalletPattern | server/server.js:225 | the leftmost match of the Format A expression decides the captures |
| Statement.WalletEntryFromMatch | server/server.js:227-256 | the transaction carries the paise of the amount match, and it is a Debit exactly when the sign is `-` |
| Statement.WalletEntryAmount | server/server.js:225-228 | the amount is the digits of the leftmost match with commas removed, in paise |
| Statement.WalletEntryKinds | server/server.js:232-256 | a `-` gives a Debit classified by the stripped vendor; a `+` gives a Credit categorised "Wallet Top-up"; both take the nearest date line |
| Statement.WalletTransactionsFromLines | server/server.js:222-259 | at most one transaction per line, each coming from a line's entry, in line order |
| Statement.TagCategoryFirstKeyword | server/server.js:280-293 | with a `#` on the tag line, the first tag keyword it contains, in source order, sets the category; otherwise the detected category stays |
| Statement.UpiLine | server/server.js:263-305 | one iteration of the Format B loop gives the specified transaction and the new vendor slot |
| Statement.ParseUpiFormat | server/server.js:262-307 | the Format B loop, with `currentVendor` starting out `null`, gives the specified transactions |
| Statement.UpiStepSlot | server/server.js:267-305 | a vendor line sets the slot to its remainder, an expense line to the whole line; an amount line with a vendor set emits only on `-` and then clears the slot |
| Statement.UpiScanDebits | server/server.js:295-304 | every Format B transaction is a Debit, at most one per line |
| Statement.ParseStatement | server/server.js:216-320 | the output is every Format A transaction followed by every Format B transaction, with the Debit totals and a grand total equal to their sum |
| Totals.ComputeTotals | server/server.js:310-317 | the `forEach` computes the Debit totals and grand total |
| Totals.TotalsSumToGrandTotal | server/server.js:310-317 | the category totals add up to the grand total |
| Totals.TotalsPerCategory | server/server.js:312-316 | each category's total is the sum spent on it in Debits |
| Totals.TotalsKeys | server/server.js:312-316 | the keys are distinct, and a category is a key exactly when some Debit has it |
| Totals.CreditChangesNothing | server/server.js:313 | appending a Credit changes neither the totals nor the grand total |
| Totals.OnlyDebitsCount | server/server.js:313 | the totals of the Debits alone are the totals of all transactions |
| Assoc.PutGet | client/src/components/Charts.jsx:147 | after `m[k] = v`, `k` reads `v` and every other key reads as before |
| Assoc.AddGet | client/src/components/Charts.jsx:108 | `(m[k] || 0) + a` raises the value at `k` by `a` and leaves the other keys alone |
| Assoc.AddSum | server/server.js:314 | adding `a` under a key raises the sum of all values by `a` |
| Assoc.AddKeys | client/src/components/Charts.jsx:108 | an existing key keeps its place, and a new key goes last in `Object.keys` order (the order of keys that are not array indices) |
| Assoc.AddDistinct | client/src/components/Charts.jsx:108 | adding keeps the keys distinct and introduces only the added key |
| Assoc.Lookup | client/src/components/Charts.jsx:145-148 | reading each key's value, or 0, along the keys gives each key its value, 0 when absent |
| Assoc.LookupAppend | client/src/components/Charts.jsx:147 | assigning a fresh key after reading along the keys is reading along the longer list |
| Assoc.SumAtCovering | client/src/components/Charts.jsx:142-167 | reading a dictionary back along distinct keys that include all its keys recovers its sum |
| Calendar.YearOfOrdinal | client/src/components/Charts.jsx:94-98 | every day lies in exactly one year, within one of the average-year estimate |
| Calendar.ToCivil | client/src/components/Charts.jsx:44-50 | the year, month and day of a day number form a valid date with that day number |
| Calendar.ToCivilDayNumber | client/src/components/Charts.jsx:44-50 | a valid date converted to its day number and back is unchanged |
| Calendar.ToCivilInjective | client/src/components/Charts.jsx:44-50 | different days have different dates |
| Calendar.CivilUniqueAll | client/src/components/Charts.jsx:44-50 | no two valid dates share a day number |
| Calendar.MonthStartStep | client/src/components/Charts.jsx:159-166 | each month starts one month length after the previous one |
| Calendar.MonthIndexBounds | client/src/components/Charts.jsx:96-98 | every day lies between its month's start and the next month's |
| Calendar.MonthIndexMonotone | client/src/components/Charts.jsx:96-98 | a later day never lies in an earlier month |
| Calendar.MonthStartOrder | client/src/components/Charts.jsx:162 | one month starts before another exactly when it comes first |
| Calendar.MakeDayShift | client/src/components/Charts.jsx:149 | `setDate(getDate() + k)` moves exactly `k` days, whatever month boundary it rolls over |
| Calendar.MakeDayNextMonth | client/src/components/Charts.jsx:165 | `setMonth(getMonth() + 1)` on the first of a month lands on the first of the next |
| Calendar.Date.SetDate | client/src/components/Charts.jsx:76 | `setDate` keeps the year and month and rolls the day over |
| Calendar.Date.SetMonth | client/src/components/Charts.jsx:165 | `setMonth` keeps the year and day of the month and rolls the month over |
| Calendar.Date.AddDays | client/src/components/Charts.jsx:149-158 | the stepping in the day and week walks moves exactly the given number of days |
| Calendar.Date.NextMonth | client/src/components/Charts.jsx:165 | the stepping in the month walk goes from one month's first to the next |
| Calendar.NewDate | client/src/components/Charts.jsx:160-161 | `new Date(year, month, date)` is a fresh date on day `date` of month `month` of the constructor's year, which is 1900 plus the argument for 0 to 99 |
| Calendar.ConstructedMonthOf | client/src/components/Charts.jsx:160-161 | the month of `new Date(getFullYear(), getMonth(), 1)` is the date's own month except in the years 0 to 99, where it is the same month 1900 years later |
| Calendar.StartOfMonth | client/src/components/Charts.jsx:160-161 | `new Date(date.getFullYear(), date.getMonth(), 1)` is a fresh date on the first of that constructed month |
| Calendar.FirstOfOwnMonth | client/src/components/Charts.jsx:160-161 | the corrected bound: a fresh date on the first of the given date's own month, in every year |
| ChartDates.IsoDate | client/src/components/Charts.jsx:58-64 | `new Date("YYYY-MM-DD")` is a date exactly when the month and day exist, and it is that calendar date |
| ChartDates.EmptyDateIsNull | client/src/components/Charts.jsx:54 | an empty date gives `null` |
| ChartDates.ExplicitFormatsExclusive | client/src/components/Charts.jsx:56-66 | no string is both `DD-MM-YYYY` and `MM/DD/YYYY` |
| ChartDates.ExplicitFormatsIgnoreFallback | client/src/components/Charts.jsx:56-68 | a string in an explicit format never reaches the engine's `new Date(raw)` |
| ChartDates.DayMonthYearParse | client/src/components/Charts.jsx:56-60 | `DD-MM-YYYY` parses to the calendar date with those digits |
| ChartDates.MonthDayYearParse | client/src/components/Charts.jsx:62-66 | `MM/DD/YYYY` parses to the calendar date with those digits |
| ChartDates.BothFormatsAgree | client/src/components/Charts.jsx:56-66 | the same day written both ways gives the same date, e.g. "15-03-2024" and "03/15/2024" |
| ChartDates.ValidPointsKept | client/src/components/Charts.jsx:84-89 | exactly the transactions whose date parses are kept, with their dates |
| ChartDates.MinDay | client/src/components/Charts.jsx:94 | `Math.min(...validDates)` is the earliest date, which some transaction has |
| ChartDates.MaxDay | client/src/components/Charts.jsx:95 | `Math.max(...validDates)` is the latest date, which some transaction has |
| ChartDates.GetMonday | client/src/components/Charts.jsx:72-77 | `getMonday(d)` is a Monday on or before `d` and fewer than 7 days earlier |
| ChartDates.MondayShift | client/src/components/Charts.jsx:75 | the shift `- day + (day === 0 ? -6 : 1)` lands on that Monday |
| ChartDates.MondayOfFixedPoints | client/src/components/Charts.jsx:72-77 | a Monday maps to itself, a Sunday to six days earlier, and taking the Monday twice is taking it once |
| ChartDates.MondayOfMonotone | client/src/components/Charts.jsx:152-153 | a later day's Monday is never earlier |
| ChartDates.FormatDayInjective | client/src/components/Charts.jsx:47-50 | two days get the same `formatDay` key exactly when they are the same day |
| ChartDates.FormatMonthSameMonth | client/src/components/Charts.jsx:44-45 | two days get the same `formatMonth` key exactly when they lie in the same month |
| ChartDates.GranularityByMonths | client/src/components/Charts.jsx:96-103 | "day" exactly for dates in one month, "week" for a span of one to three months, "month" for four or more |
| Grouping.GroupedKeys | client/src/components/Charts.jsx:106-140 | the keys built by adding each amount under its key are distinct and are exactly the transactions' keys |
| Grouping.GroupedSum | client/src/components/Charts.jsx:106-140 | grouping loses no amount: the totals add up to the sum of all amounts |
| Grouping.GroupedPerBucket | client/src/components/Charts.jsx:106-140 | each key holds the sum of its transactions' amounts, and any other key reads as 0 |
| Series.BucketLabel | client/src/components/Charts.jsx:132-137 | the bucket key is the day, the Monday of the week, or the month of the date |
| Series.GroupTotals | client/src/components/Charts.jsx:129-140 | the `forEach` builds the grouping of the transactions by bucket key |
| Series.FillDays | client/src/components/Charts.jsx:143-149 | the day walk reads `groupedTotals` along every day from the first date to the last |
| Series.FillWeeks | client/src/components/Charts.jsx:150-158 | the week walk reads it along every Monday from the first date's week to the last date's, 7 days apart |
| Series.FillDaysClocked | client/src/components/Charts.jsx:143-149 | the day walk when the dates carry a time of day: `setDate` keeps the first date's time, so it reads every day up to the last date's when that time is not later than the last date's, and one day less otherwise |
| Series.FillWeeksClocked | client/src/components/Charts.jsx:150-158 | the week walk when the dates carry a time of day: every Monday up to the last date's when the first date's time is not later than the last date's, and one week less otherwise |
| Series.ClockedDayBarsShort | client/src/components/Charts.jsx:143-149 | when the last date's time of day is earlier than the first date's, the day walk leaves out the last date's day, and the bars add up to the total less every amount dated that day |
| Series.ClockedWeekBarsShort | client/src/components/Charts.jsx:150-158 | in the same case the week walk leaves out the last date's week, and the bars add up to the total less every amount in that week |
| Series.FillMonths | client/src/components/Charts.jsx:159-167 | the corrected month walk reads it along every month from the first date's own month to the last date's |
| Series.FillMonthsAsWritten | client/src/components/Charts.jsx:159-167 | the month walk as written reads it along the months from the first date's constructed month to the last date's |
| Series.ConstructedMonthLabelsAgree | client/src/components/Charts.jsx:159-167 | when neither date lies in the years 0 to 99, the walk as written reads the same keys as the corrected walk |
| Series.TwoDigitYearBarsEmpty | client/src/components/Charts.jsx:159-167 | when the first date lies in the years 0 to 99 and no date is later than the year 99, every bar of the walk as written is 0, and the bars add up to 0 |
| Series.NoTransactionInMonth | client/src/components/Charts.jsx:129-140 | no transaction of the years up to 99 is grouped under a month key of the year 1900 or later |
| Series.FillTotals | client/src/components/Charts.jsx:142-167 | `filledTotals` for the chosen granularity is the lookup along the walk's keys, 0 where nothing was grouped |
| Series.SeriesDistinct | client/src/components/Charts.jsx:142-167 | no key repeats along a walk, so each step adds a new entry to `filledTotals` |
| Series.SeriesCovers | client/src/components/Charts.jsx:142-167 | every day from the first date to the last falls in one of the walk's buckets |
| Series.SeriesEnds | client/src/components/Charts.jsx:142-167 | the walk is never empty, starts at the first date's bucket and ends at the last date's |
| Series.FilledSum | client/src/components/Charts.jsx:129-167 | the filled series adds up to the sum of the valid transactions' amounts |
| Pie.NormalizeCategoryCases | client/src/components/Charts.jsx:17-34 | a missing category gives "Other"; a lower-cased key of `mergedCategories` gives its label; anything else is unchanged |
| Pie.NormalizeCategoryIdempotent | client/src/components/Charts.jsx:17-34 | normalising twice is normalising once, because every label is a fixed point |
| Pie.MergedLabelsFixed | client/src/components/Charts.jsx:17-34 | every label of `mergedCategories` normalises to itself |
| Pie.CategoryTotalsCorrect | client/src/components/Charts.jsx:106-117 | distinct keys that are exactly the normalised categories; each holds its transactions' amounts, Debit or Credit; together they make `total` |
| Pie.AdjustedFrom | client/src/components/Charts.jsx:120-124 | one slice per category, in order, with its name, true value and widened display value |
| Pie.AdjustedPieSlices | client/src/components/Charts.jsx:118-124 | a slice shows at least its true value and at least a tenth of the total; exactly its value from a tenth up; exactly a tenth below that |
| Pie.TotalDisplayedAtLeast | client/src/components/Charts.jsx:187 | the displayed values add up to at least the total |
| Ranking.BestFromFirstMax | client/src/components/Charts.jsx:198-223 | a reduce that moves only on a strict improvement keeps its start when nothing beats it, and otherwise ends on the first element with the best key |
| Ranking.FirstElementBest | client/src/components/Charts.jsx:282-295 | the reduce from the first element ends on the first element with the best key |
| Ranking.SortDescCorrect | client/src/components/Charts.jsx:188 | the sort with comparator `key(b) - key(a)` orders by descending key, keeps every element, and is stable |
| Ranking.SortDescHead | client/src/components/Charts.jsx:323 | the head of the sorted list is the first element with the largest key |
| Insights.HighestPeriod | client/src/components/Charts.jsx:198-201 | the highest period is the first with the largest amount; an all-zero series leaves `["", 0]` |
| Insights.LowestPeriod | client/src/components/Charts.jsx:220-223 | the lowest period is the first with the smallest amount; only an empty series leaves `["", Infinity]` |
| Insights.LargestTransaction | client/src/components/Charts.jsx:282-284 | the largest transaction is the first with the largest amount; none without transactions |
| Insights.SmallestTransaction | client/src/components/Charts.jsx:293-295 | the smallest transaction is the first with the smallest amount; none without transactions |
| Insights.RoundHalfUpNearest | client/src/components/Charts.jsx:277 | `Math.round(a / b)` is the nearest whole number, a half going up |
| Insights.MedianOfSorted | client/src/components/Charts.jsx:273-278 | the amounts are sorted ascending as a permutation; odd count: the middle amount; even count: the mean of the middle two rounded to whole rupees |
| Insights.WeekendWeekdaySplit | client/src/components/Charts.jsx:304-310 | `total - weekendSpend` is exactly the Monday-to-Friday spend, and the two add up to the total |
| Insights.GrowthOfFilled | client/src/components/Charts.jsx:257-265 | growth is shown exactly with two or more periods and spending in the one before the last, and it never divides by zero |
| Insights.BusiestDayMost | client/src/components/Charts.jsx:318-323 | the busiest weekday has the most transactions of any weekday, ties going to the one met first; `["N/A", 0]` without transactions |
| Insights.CategoryCountDistinct | client/src/components/Charts.jsx:327 | the category count is the number of different normalised categories |
| Insights.TopCategoryFirst | client/src/components/Charts.jsx:188 | the top category is the first slice with the largest displayed value |
| Insights.TopTwoThrowsBelowTwoCategories | client/src/components/Charts.jsx:238-242 | with fewer than two categories, insight 5 as written fails, while the corrected sum is the whole displayed value: the one slice's, or 0 |
| Insights.TopTwoThrowsOnOneCategory | client/src/components/Charts.jsx:238-242 | a single Shopping slice of 500 rupees makes insight 5 as written fail, where the corrected sum is that slice's |
| Insights.TopTwoAgrees | client/src/components/Charts.jsx:238-242 | with two or more categories the corrected sum is what insight 5 computes |
| Insights.TotalDisplayedRanked | client/src/components/Charts.jsx:187-188 | ranking the slices neither adds nor loses displayed value |
| Insights.TopSum | client/src/components/Charts.jsx:345-346 | the top categories show at most the total displayed value, all of it once every category is included, and at least the largest slice |
| Charts.ChartsAgree | client/src/components/Charts.jsx:106-310 | the pie, the bars and the weekend/weekday split each add up to the sum of the valid transactions' amounts |
| Charts.RenderFollowsSource | client/src/components/Charts.jsx:160-242 | the pie has at least one slice; insight 5 as written fails exactly when it has one, and otherwise equals the corrected sum; outside the years 0 to 99 the month walk as written reads the corrected walk's keys |
| Charts.YearTwentyFourParses | client/src/components/Charts.jsx:56-60 | "15-03-0024" and "15-09-0024" parse to days of the year 24, not 1924 |
| Charts.YearTwentyFourPoints | client/src/components/Charts.jsx:84-89 | two transactions with those dates are both kept, with those days |
| Charts.YearTwentyFourSpan | client/src/components/Charts.jsx:94-103 | their dates are six months apart, so the bars are by month |
| Charts.TwoDigitYearExample | client/src/components/Charts.jsx:159-167 | for those two transactions the bars are by month; the walk as written adds up to 0, and the corrected walk to both amounts |
| Charts.Render | client/src/components/Charts.jsx:79-346 | "No data to display" exactly for no transactions; "No valid transaction dates found" exactly when none has a parsable date; otherwise the pie, granularity, bars and insight figures with the two corrections of "## Findings", the charts in agreement, and the result equal to the source's wherever the source's is defined and the dates, calendar days, lie outside the years 0 to 99 |

## Left out

- I/O and libraries are not modelled. The model starts from the split, trimmed
  lines and leaves out the Express routes, multer, `fs`, `pdf-parse`, CORS,
  static serving and `console.log` (server/server.js:1-32, 204-216, 319-339).
  Rendering is left out too: React, the JSX, recharts, and Dashboard.jsx,
  UploadForm.jsx and App.jsx are not part of this model.
- Amounts are whole paise. `parseFloat` and floating-point rounding are not
  modelled. A Format B digit run made only of commas ("- Rs ,") gives `NaN` in
  the source and 0 paise here.
- `toLowerCase` and the regular expressions' `i` flag fold ASCII letters only.
  Full Unicode case mapping is not modelled.
- `new Date(raw)`, the fallback of `parseDateSafely`, depends on the engine.
  It is a function parameter that may fail. An explicit-format date whose day
  does not exist in its month (e.g. "31-02-2024") counts as invalid here, where
  some engines roll it over.
- Series.FillDays, Series.FillWeeks, Series.SeriesEnds, Series.FilledSum,
  Charts.ChartsAgree, Charts.Render: a date is a calendar day, so the walks
  reach the last date's bucket and the bars add up to the total. In the source
  every date from `new Date(raw)` carries the time of day of its line, and an
  explicit-format date is UTC midnight read back in local time, which a change
  of daylight saving time shifts. When the last date's time is earlier than the
  first date's, the day and week walks stop one bucket short and that bucket's
  amounts are in no bar. `Series.FillDaysClocked` and `Series.FillWeeksClocked`
  model that case with a time of day for the first and last dates; time zones
  and a change of UTC offset between the two are not modelled.
- A missing `transactions` prop (`null`) is not modelled; the list is always
  present.
- Insights 3, 8, 10, 15, 18 and 19 are not modelled. They are averages or a
  standard deviation over floating point.
- All insight wording is left out, and so is the formatting of insights 1, 5
  and 20: `toFixed`, `toLocaleString`, percentage strings, period labels,
  `getWeekNumber` and the bar labels (client/src/components/Charts.jsx:37-41,
  169-184).
- The median's rounding of the rupee mean of the two middle amounts is exact
  arithmetic on paise; floating-point error in that division is not modelled.
- Prototype keys of JavaScript objects (a category named "constructor", say)
  are not modelled; every key behaves like an ordinary one. Nor is the order
  `Object.keys` gives keys that are array indices ("0", "42"), which come first
  in numeric order; the parser's categories and the date keys never are such
  keys.
- The unquoted `1mg:` key at server/server.js:168 is not legal JavaScript. It
  is read as the string key "1mg".

## Findings

| source | as written | input that shows it | evidently intended | confidence | as-written member | corrected member |
|---|---|---|---|---|---|---|
| client/src/components/Charts.jsx:238-242 | insight 5 adds `topTwo[0].displayValue + topTwo[1].displayValue` without checking that there are two categories; with one, `topTwo[1]` is `undefined` and reading `displayValue` throws, so the component fails to render | a statement whose valid transactions all fall into one category, e.g. a single Shopping transaction of ₹500 | sum the displayed values of at most two top categories, as insight 20 does for three | high; not executed | Insights.TopTwoThrowsBelowTwoCategories | Insights.TopSum |
| client/src/components/Charts.jsx:160-161 | the month walk builds its bounds with `new Date(y, m, 1)`, and the Date constructor reads a year from 0 to 99 as 1900 plus that year. `groupedTotals` keys the transactions by `formatMonth` of their own date. So for dates in those years the walk reads only keys of 1900 to 1999, which nothing was grouped under, and every bar is 0 | two transactions dated "15-03-0024" and "15-09-0024": the bars are by month, the walk reads "1924-03" to "1924-09", and the amounts sit under "24-03" and "24-09" | walk from the first date's own month to the last date's, as the day and week walks do by copying the date | medium; not executed | Charts.TwoDigitYearExample | Series.FillMonths |
| client/src/components/Charts.jsx:143-158 | the day and week walks start from a copy of `minDate` (or its Monday), which keeps its time of day through `setDate`, and run while `d <= maxDate` (or its Monday) compares whole moments. When the last date's time of day is earlier than the first date's, the walk stops before the last date's bucket, and the amounts dated there appear in no bar | transactions dated by the lines "15 Mar 2024 10:00" and "17 Mar 2024 09:00", read by an engine that parses them as local times: the bars are for the 15th and 16th only | walk every bucket from the first date's to the last date's, comparing calendar days | medium; not executed | Series.ClockedDayBarsShort | Series.FillDays |
