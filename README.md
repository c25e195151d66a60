# Expense tracker core, modelled in Dafny

This project models the deterministic logic inside a small personal expense
tracker (a React app that reads receipts with Google's Gemini model). There
are three parts:

- **Receipt extraction** (`services/geminiService.ts`, `processReceiptImage`).
  The service returns a demonstration record ("mock data") when no API key is
  configured. Otherwise it reads the image as a data URL, strips the
  `data:…;base64,` prefix, sends one `generateContent` request and returns
  whatever `JSON.parse` makes of the reply. It falls back to the mock record
  when the call fails, the reply is empty or the reply is not JSON. The
  function `GeminiService.ProcessReceiptImage` takes everything outside the
  code as input: the key, whether the SDK constructor throws, the
  `FileReader` result, the clock, the model call (`Request -> Throws | Text`)
  and the parser (`string -> Option<Json>`). It returns how the promise
  settles and the list of requests sent.
- **Monthly comparison** (`components/ComparisonCard.tsx`). This month's
  and last month's totals, their absolute difference and the strict
  "increase" flag. An empty list renders no card.
- **Calendar tiles** (`components/CalendarView.tsx`). The daily total is a
  filter by day followed by a sum. A tile is labelled only in the month
  view and only when that total is positive.

Modules:

- `Text`: JavaScript `split` and index access.
- `Dates`: (year, month, day) triples and month arithmetic.
- `IsoTime`: `toISOString` and the "today" prefix.
- `Expenses`: `filter`/`reduce`, with a reference sum `SumWhere`.
- `CalendarView`, `ComparisonCard` and `GeminiService`: the three parts above.

The app's intended fallback design and its code differ in two places. The
model follows the code:

- A failure to read the file, or to construct the SDK client, rejects the
  promise. The intended design has every failure fall back to the mock
  record. The code does both steps before its `try`, so they are not
  caught.
- The parsed reply is returned without checking its fields or types. The
  intended design validates it against the schema. The code only
  casts it (`as ReceiptData`). `NoSchemaCheck` shows a `null` reply coming
  back unchanged.

## Model

| member | source | states |
|---|---|---|
| `Text.Split` | services/geminiService.ts:30 | `split` always gives at least one part, and no part contains the separator |
| `Text.Field` | services/geminiService.ts:30 | indexing the split is defined exactly below the number of parts (otherwise `undefined`), and a defined field has no separator |
| `Text.JoinSplit` | services/geminiService.ts:30 | joining the parts of a split gives back the original string |
| `Text.SplitJoin` | services/geminiService.ts:30 | splitting a join of separator-free parts gives back those parts |
| `Text.SplitNoSeparator` | services/geminiService.ts:30 | a string without the separator splits into itself alone |
| `Text.SplitAfterPrefix` | services/geminiService.ts:11 | a separator-free prefix followed by the separator is the first part, and the rest splits on its own |
| `Text.FirstPartIsPrefix` | services/geminiService.ts:11 | `split(c)[0]` is the longest prefix without `c`: either the whole string or followed by `c` |
| `Text.SecondField` | services/geminiService.ts:29-30 | `split(',')[1]` is the segment after the first comma, up to the next comma or the end |
| `Text.NoSecondField` | services/geminiService.ts:29-30 | with no comma, field 0 is the whole string and field 1 is `undefined` |
| `Text.SecondFieldDefined` | services/geminiService.ts:30 | field 1 is `undefined` if and only if the string has no separator |
| `Text.SecondFieldFromAnySeparator` | services/geminiService.ts:30 | any occurrence of the separator makes field 1 defined |
| `Text.PayloadOfDataUrl` | services/geminiService.ts:29-30 | for `prefix,payload` with no other comma, field 1 is exactly `payload` |
| `Dates.PrevMonth` | components/ComparisonCard.tsx:14 | the previous month is the one whose month index is one less (January becomes December of the year before) |
| `Dates.MonthIndexInjective` | components/ComparisonCard.tsx:14 | two months with the same month index are the same month |
| `Dates.PrevNextInverse` | components/ComparisonCard.tsx:14 | `PrevMonth` is invertible: stepping one month forward (a helper, not in the code) undoes it, both ways round |
| `Dates.PrevMonthOfJanuary` | components/ComparisonCard.tsx:14 | the month before January of year y is December of year y-1 |
| `Dates.PrevMonthDiffers` | components/ComparisonCard.tsx:14-22 | the previous month is never the current month, so the two filters select different months |
| `IsoTime.Digits` | services/geminiService.ts:11 | a number's decimal rendering is non-empty, all digits, and denotes that number |
| `IsoTime.Pad` | services/geminiService.ts:11 | zero padding gives at least the requested width, all digits, and still denotes the number |
| `IsoTime.DigitsFit` | services/geminiService.ts:11 | a number below 10^w has at most w digits |
| `IsoTime.PadExact` | services/geminiService.ts:11 | a field below 10^w is padded to exactly w characters |
| `IsoTime.YearText` | services/geminiService.ts:11 | the year rendering never contains `T` |
| `IsoTime.DateText` | services/geminiService.ts:11 | the date part of an ISO timestamp never contains `T` |
| `IsoTime.IsoString` | services/geminiService.ts:11 | the `toISOString()` text starts with the date text, followed by `T`, and ends in `Z` |
| `IsoTime.TodayOf` | services/geminiService.ts:11 | a timestamp that starts with a `T`-free date followed by `T` has that date as `split('T')[0]` |
| `IsoTime.Today` | services/geminiService.ts:11 | `toISOString().split('T')[0]` is exactly the `YYYY-MM-DD` text of the UTC date |
| `IsoTime.DateTextShape` | services/geminiService.ts:11 | for a four-digit year the date is ten characters, with dashes at positions 4 and 7 and digits elsewhere |
| `Expenses.Filter` | components/CalendarView.tsx:16 | the filtered list is no longer than the input, holds exactly the listed expenses that satisfy the predicate, and keeps each of them as often as the input has it |
| `Expenses.Reduce` | components/CalendarView.tsx:17 | `reduce((sum, e) => sum + e.amount, acc)` is `acc` plus the reference total of every amount in the list (also ComparisonCard.tsx lines 24-25) |
| `Expenses.FilterReduce` | components/CalendarView.tsx:15-17 | filtering and then reducing from `acc` gives `acc` plus the reference total of the matching expenses |
| `Expenses.SumWhereConcat` | components/CalendarView.tsx:15-17 | the total over a concatenation is the sum of the two totals |
| `Expenses.SumWhereNoMatch` | components/ComparisonCard.tsx:16-25 | expenses that fail the predicate contribute nothing |
| `Expenses.SumWhereBounds` | components/CalendarView.tsx:17 | with non-negative amounts the total is non-negative and at least each matching amount |
| `Expenses.SumWherePositive` | components/CalendarView.tsx:17-23 | with non-negative amounts the total is positive if and only if some matching expense has a positive amount |
| `Expenses.SumWherePermutation` | components/ComparisonCard.tsx:16-25 | lists with the same multiset of expenses give the same total |
| `CalendarView.DailyTotal` | components/CalendarView.tsx:14-18 | `getDailyTotal(d)` (filter by the `isSameDay` predicate `OnDay(d)`, then reduce from 0) equals the reference sum of the amounts of the expenses dated `d` |
| `CalendarView.TileContent` | components/CalendarView.tsx:20-32 | a label is produced if and only if the view is `'month'` and the daily total is above 0, and it carries that total; otherwise `null` |
| `CalendarView.DailyTotalEmpty` | components/CalendarView.tsx:14-18 | the daily total of an empty list is 0 |
| `CalendarView.DailyTotalConcat` | components/CalendarView.tsx:15-17 | the daily total over two concatenated lists is the sum of their daily totals |
| `CalendarView.DailyTotalOtherDay` | components/CalendarView.tsx:16 | appending an expense dated on another day leaves the daily total unchanged |
| `CalendarView.DailyTotalBounds` | components/CalendarView.tsx:17 | with non-negative amounts the daily total is non-negative and at least each amount of that day |
| `CalendarView.DailyTotalPermutation` | components/CalendarView.tsx:15-17 | reordering the expense list leaves the daily total unchanged |
| `CalendarView.TileShownIffPositiveExpense` | components/CalendarView.tsx:20-31 | with non-negative amounts a tile is labelled if and only if it is the month view and some expense that day is positive |
| `CalendarView.DailyTotalExample` | components/CalendarView.tsx:14-18 | 500 + 300 yen on 2024-05-01 and 100 yen on 2024-05-02 give 800 for 2024-05-01 |
| `ComparisonCard.MonthTotal` | components/ComparisonCard.tsx:16-25 | filtering by the `isSameMonth` predicate `InMonth(ym)` (lines 17 and 21) and reducing from 0 equals the reference sum of that month's amounts |
| `ComparisonCard.Compute` | components/ComparisonCard.tsx:11-33 | the current total is this month's reference sum and the last total is the previous month's; the difference is `|current - last|` and never negative; `isIncrease` holds if and only if current > last |
| `ComparisonCard.Card` | components/ComparisonCard.tsx:35 | no card (`null`) if and only if the list is empty; otherwise the computed report |
| `ComparisonCard.EmptyTotals` | components/ComparisonCard.tsx:24-25 | over an empty list both totals and the difference are 0, and there is no increase |
| `ComparisonCard.OtherMonthIgnored` | components/ComparisonCard.tsx:16-22 | an expense in neither this month nor the previous one leaves the whole report unchanged |
| `ComparisonCard.CurrentTotalOnlyCurrent` | components/ComparisonCard.tsx:16-18 | the current total is determined by this month's expenses alone, and they contribute nothing to last month |
| `ComparisonCard.FilterIdempotent` | components/ComparisonCard.tsx:16-18 | filtering twice by the same month is filtering once |
| `ComparisonCard.ComputePermutation` | components/ComparisonCard.tsx:16-25 | reordering the expense list leaves the whole report unchanged |
| `ComparisonCard.JanuaryComparesWithDecember` | components/ComparisonCard.tsx:14 | in January the last-month total is the sum over December of the previous year |
| `ComparisonCard.DecreaseExample` | components/ComparisonCard.tsx:30-31 | 1000 yen this month against 1500 last month is no increase, with difference 500 |
| `GeminiService.ReceiptJsonRoundTrip` | services/geminiService.ts:43-59 | a receipt record converted to a JSON object is read back unchanged under the response schema |
| `GeminiService.MockData` | services/geminiService.ts:9-13 | the mock record is dated with the `YYYY-MM-DD` text of the current UTC date |
| `GeminiService.MockRecord` | services/geminiService.ts:9-13 | the mock record is store `セブンイレブン (デモ)`, 1580 yen, today's date; it has every schema field; for four-digit years its date is `YYYY-MM-DD` |
| `GeminiService.BuildRequest` | services/geminiService.ts:64-76 | the request's date hint is today's UTC date; its payload is `undefined` if and only if the data URL has no comma |
| `GeminiService.Settle` | services/geminiService.ts:78-88 | the `try` block always resolves; any value other than the mock record is what `JSON.parse` made of non-empty reply text |
| `GeminiService.ProcessReceiptImage` | services/geminiService.ts:4-90 | at most one request; exactly one if and only if the key is usable, the client was built and the file was read; rejection if and only if the key is usable and the client or the read failed; any non-mock result is the parse of the one reply |
| `GeminiService.NoKeyUsesMock` | services/geminiService.ts:15-19 | with the key absent (`undefined`), empty (falsy) or the placeholder, which is what `KeyMissing` tests at line 16, the result is the mock record and no request is made |
| `GeminiService.SingleRequest` | services/geminiService.ts:64-76 | with a usable key and a read file there is exactly one request, with the file's type, `dataUrl.split(',')[1]`, the local year and today's date; there is no retry |
| `GeminiService.RequestCarriesPayload` | services/geminiService.ts:29-30 | for a data URL `prefix,payload` the request carries exactly `payload` |
| `GeminiService.FailedAnalysisUsesMock` | services/geminiService.ts:78-88 | a throwing call, an empty reply or a reply `JSON.parse` rejects all give the mock record |
| `GeminiService.ParsedPassedThrough` | services/geminiService.ts:83-84 | a reply that parses is returned exactly as parsed |
| `GeminiService.EarlyFailureRejects` | services/geminiService.ts:22-37 | a failing SDK construction or file read rejects the promise, with no request and no mock record |
| `GeminiService.NoSchemaCheck` | services/geminiService.ts:83 | a reply of `null` resolves to `null`, which does not have the receipt shape |
| `GeminiService.LawsonExample` | services/geminiService.ts:83-84 | a Lawson receipt reply (620 yen, 2024-05-03) is returned as that exact object |
| `GeminiService.ProcessReceiptImageGuarded` | services/geminiService.ts:85-88 | with the read and the client construction inside the `try`, the promise always resolves; at most one request; any non-mock result is the parse of the reply |
| `GeminiService.GuardedAgrees` | services/geminiService.ts:85-88 | the guarded version equals the code wherever the code resolves, and gives the mock record wherever the code rejects |
| `GeminiService.ReadErrorEscapesFallback` | services/geminiService.ts:25-37 | with a usable key, an unreadable file rejects as written but gives the mock record in the guarded version |

## Left out

- The Gemini SDK, the network, the prompt wording and the response schema. The model call is an input function from the request to `Throws | Text(text)`. The request keeps only what the code computes: model name, MIME type, payload, year hint, today hint.
- A model call that never settles. No timeout is set on `generateContent` (line 64). `CallOutcome` has only `Throws` and `Text`, so the claims that `Settle` and `ProcessReceiptImageGuarded` always resolve assume the call settles.
- A throw from `getGenerativeModel` becomes `Throws` of the one call. It ends in the same `catch`, but the model still lists the request as sent.
- `FileReader` and the async/Promise mechanics. The read result is an input, `Loaded(dataUrl) | ReadError`. "Rejected" stands for a rejected promise.
- `JSON.parse` is an input function `string -> Option<Json>`. JSON numbers are whole numbers here.
- `console.warn` and `console.error` logging.
- The clock is one instant. The code reads `new Date()` three times (lines 11, 72 and 74), and the model reads it once: a UTC instant for `toISOString` plus the local year for `getFullYear`. Time zones are not modelled: the UTC date of `toISOString` and the local dates of `parseISO` and `new Date()` are separate inputs.
- `date-fns` (`parseISO`, `isSameDay`, `isSameMonth`, `subMonths`, `startOfMonth`). Expense dates are (year, month, day) triples, and the month before is `Dates.PrevMonth`.
- JavaScript floating-point numbers: amounts are integer yen.
- React rendering, JSX, CSS, `toLocaleString`, `useMemo` caching and the `react-calendar` widget. A tile label is `Some(total)`, and `null` is `None`.
- Expense fields other than the date and the amount: the aggregations do not read them.

## Findings

| source | as written | input that shows it | evidently intended | confidence | as-written member | corrected member |
|---|---|---|---|---|---|---|
| services/geminiService.ts:25-37 | the file read (and the SDK construction at line 22) sits before the `try`, so a read error rejects the promise | a configured key and a file whose `FileReader` fires `onerror` | every failure falls back to the mock record, as the comment at lines 87-88 says | medium, not executed | `GeminiService.ReadErrorEscapesFallback` | `GeminiService.ProcessReceiptImageGuarded` |
