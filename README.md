# Neon Data Matrix dashboard — a Dafny model of its core

The dashboard downloads a Google Sheet as CSV text and parses the text into one
record per line. From those records it computes the summary cards: clients,
products, revenue, delivered and in-progress counts, and the conversion rate.
It also computes three chart series: revenue and products per client, and a
histogram of the status column. It shows a loading view, an error view or the
main view. Around the data it has a status badge, chart colours and a tooltip,
metric cards with a trend block and a hover glow, a notification bell, and an
assistant chat panel.

The model has one module per source file, plus two helper modules:

- `Wrappers` holds `Option`.
- `JsText` holds the JavaScript string operations the code relies on, as the code uses them:
  - `trim`;
  - `split` on one character;
  - `toLowerCase`, and `toUpperCase` of one character;
  - `includes`;
  - `replace` of a one-character string, which replaces only the first occurrence;
  - `parseInt` in base 10, where `None` stands for `NaN`.

Modules mapped to source files:

- `Csv` is the parsing step of `useGoogleSheets`.
- `SheetSource.Source` is the hook's state: `data`, `loading` and `error`. `FetchData` is one whole fetch, with the way the response ended given as an input.
- `Dashboard` covers the metrics, the chart series, the view choice and the chat-open flag. `StatusDistribution` is the histogram reduce, written with its loop.
- `StatusIndicator`, `DataVisualization`, `MetricCard`, `Notifications` and `ChatBot` each model their component. `ChatBot.Panel` is a class over the panel's three pieces of state.

Where the code's behaviour differs from the intended behaviour of the system, the model follows the code:

- **Price cleaning.** `replace('₹', '')` and `replace(',', '')` each remove only the first occurrence. A price like "₹1,00,000" therefore reaches `parseInt` as "100,000" and counts as 100 (`Dashboard.GroupedPriceExample`).
- **NaN.** A price or product count that `parseInt` cannot read is `NaN`, and `NaN` makes the whole total `NaN` (`Dashboard.RevenueNaN`).
- **Empty error message.** The error view is chosen by truthiness. An error whose message is the empty string therefore shows the main view (`Dashboard.FailureView`).
- **Overlapping fetches.** Nothing guards against them. A slower, older response that lands last overwrites newer data (`SheetSource.StaleResponseWins`).
- **Missing "Status" column.** The cards read the status with `item.Status?.`, but the client table passes `item.Status` to the status badge, which calls `toLowerCase` on it unguarded. For a sheet with no "Status" column the metrics are still computed, but the table render throws (`Dashboard.MissingStatusBreaksTable`). No component sets up an error boundary, so React then removes the whole page and the cards are not shown either.
- **Card glow.** Every metric card on the dashboard has a gradient class that names neither "cyan" nor "purple". So all four cards glow pink (`MetricCard.DashboardCardGlowsPink`).

## Model

| member | source | states |
|---|---|---|
| JsText.TrimEmptyIffBlank | src/hooks/useGoogleSheets.ts:35 | trimming gives the empty string exactly when the text is all white space |
| JsText.Trim | src/hooks/useGoogleSheets.ts:35 | the result is no longer than the text and neither starts nor ends with white space; see `JsText.TrimPadded` for what is kept |
| JsText.TrimPadded | src/hooks/useGoogleSheets.ts:42 | white space added on either side of a text does not change its trimmed form |
| JsText.TrimTight | src/hooks/useGoogleSheets.ts:42 | a text that neither starts nor ends with white space is its own trimmed form |
| JsText.TrimIdempotent | src/hooks/useGoogleSheets.ts:42 | trimming twice is trimming once |
| JsText.JoinSplit | src/hooks/useGoogleSheets.ts:35-39 | splitting on a delimiter loses nothing: joining the pieces back restores the text |
| JsText.SplitJoin | src/hooks/useGoogleSheets.ts:35-39 | fields that do not contain the delimiter come back unchanged when joined and then split |
| JsText.SplitFirst | src/components/dashboard/Dashboard.tsx:58 | the first piece of a split is the text before the first delimiter, or the whole text when there is none |
| JsText.Split | src/hooks/useGoogleSheets.ts:35-39 | one more piece than there are delimiters, and no piece contains the delimiter; see `JsText.JoinSplit` |
| JsText.ToLowerIdempotent | src/components/dashboard/Dashboard.tsx:39-40 | lower-casing twice is lower-casing once |
| JsText.LowerFixesLowercase | src/components/dashboard/StatusIndicator.tsx:6 | lower-casing leaves a text unchanged exactly when it has no capital letter |
| JsText.ToLower | src/components/dashboard/Dashboard.tsx:39-40 | same length, every character lowered one by one, and no capital letter left |
| JsText.Includes | src/components/dashboard/MetricCard.tsx:62-63 | definition (a match at this position or later); see `JsText.IncludesAt`, `MetricCard.Glow` |
| JsText.IndexOf | src/components/dashboard/Dashboard.tsx:35 | the first position of the character, with nothing equal to it before; -1 exactly when it is absent |
| JsText.RemoveFirst | src/components/dashboard/Dashboard.tsx:35 | `replace` with a one-character pattern drops only the first occurrence: the text is unchanged when the character is absent, and otherwise one character shorter with one occurrence fewer, the same before that position and shifted by one after it |
| JsText.RemoveFirstOther | src/components/dashboard/Dashboard.tsx:35 | removing the first occurrence of one character leaves the count of every other character unchanged |
| JsText.DecimalValue | src/components/dashboard/Dashboard.tsx:33-36 | the decimal digits of a natural number read back as that number |
| JsText.DigitPrefixStops | src/components/dashboard/Dashboard.tsx:33-36 | parseInt's digit run stops at the first character that is not a digit |
| JsText.ParseIntDigits | src/components/dashboard/Dashboard.tsx:33-36 | parseInt reads the leading digits after an optional sign and ignores whatever trails them |
| JsText.ParseIntSpell | src/components/dashboard/Dashboard.tsx:33-36 | parseInt of leading blanks, a decimal numeral and a non-digit tail gives the number |
| JsText.ParseInt | src/components/dashboard/Dashboard.tsx:33-36 | `NaN` exactly when no digit follows the leading white space and optional sign; never negative without a minus sign; see `JsText.ParseIntSpell` |
| Csv.RowOf | src/hooks/useGoogleSheets.ts:40-44 | a record's keys are exactly the trimmed header names |
| Csv.Lines | src/hooks/useGoogleSheets.ts:35 | a trimmed text always gives at least one line, the header line |
| Csv.Headers | src/hooks/useGoogleSheets.ts:36 | definition (the first line split on commas); see `Csv.RowKeys` |
| Csv.Field | src/hooks/useGoogleSheets.ts:42 | definition (the trimmed field, or "" past the end); see `Csv.MissingFieldsEmpty` |
| Csv.Parse | src/hooks/useGoogleSheets.ts:38-45 | definition (one record per line after the header); see `Csv.ParseAt`, `Csv.RowCount`, `Csv.ParsedValue` |
| Csv.ParseAt | src/hooks/useGoogleSheets.ts:38-44 | unfolds the parse for one index: the record count is the line count minus the header, and record j comes from line j + 1; the step lemma behind `Csv.ParseText` |
| Csv.BuildRow | src/hooks/useGoogleSheets.ts:39-44 | the header loop builds the record that assigns every trimmed header its trimmed field, or the empty string when the field is missing |
| Csv.ParseText | src/hooks/useGoogleSheets.ts:34-45 | the parse loop returns one record per line after the header, in order, as the parse function defines |
| Csv.RowCount | src/hooks/useGoogleSheets.ts:35-38 | the number of records is the number of line breaks inside the trimmed text |
| Csv.HeaderOnlyHasNoRows | src/hooks/useGoogleSheets.ts:35-38 | a text with only a header line parses to no records |
| Csv.RowKeys | src/hooks/useGoogleSheets.ts:36-42 | every record has exactly the header names as keys |
| Csv.LastColumnWins | src/hooks/useGoogleSheets.ts:41-42 | when two columns share a trimmed name, the later column's value is kept |
| Csv.ColumnValue | src/hooks/useGoogleSheets.ts:41-42 | with distinct header names, each key holds the trimmed field of its own column |
| Csv.ParsedValue | src/hooks/useGoogleSheets.ts:38-42 | in a parsed record a column's key holds that line's trimmed field |
| Csv.ExtraFieldsIgnored | src/hooks/useGoogleSheets.ts:41-42 | fields beyond the last header are dropped |
| Csv.MissingFieldsEmpty | src/hooks/useGoogleSheets.ts:42 | a column with no field or a blank field holds the empty string |
| Csv.RowOfPrefixKeys | src/hooks/useGoogleSheets.ts:41 | a key that does not come from the last header comes from an earlier one |
| Csv.BlankLineRow | src/hooks/useGoogleSheets.ts:38-42 | an empty line inside the text gives a record whose every value is empty |
| Csv.QuotesIgnored | src/hooks/useGoogleSheets.ts:39 | quotes are not honoured: a quoted comma still cuts the field in two, so the line `"Acme, Inc",3` splits into three pieces |
| SheetSource.FailureMessage | src/hooks/useGoogleSheets.ts:30-49 | a non-ok response gives "Failed to fetch data"; a thrown Error gives its message; any other thrown value gives the generic text |
| SheetSource.CaughtMessage | src/hooks/useGoogleSheets.ts:49 | definition (the message of an Error, else the generic text); see `SheetSource.FailureMessage` |
| SheetSource.Source.constructor | src/hooks/useGoogleSheets.ts:12-14 | no data, loading, no error |
| SheetSource.Source.Begin | src/hooks/useGoogleSheets.ts:18-19 | loading starts, the error is cleared, and the data stays |
| SheetSource.Source.CompleteOk | src/hooks/useGoogleSheets.ts:34-52 | the data becomes the parsed text, loading ends, and the error stays |
| SheetSource.Source.CompleteErr | src/hooks/useGoogleSheets.ts:48-52 | the error becomes the message, loading ends, and the data stays |
| SheetSource.Source.Complete | src/hooks/useGoogleSheets.ts:30-52 | a body replaces the data; a failure keeps the old data and records its message; loading ends either way |
| SheetSource.Source.FetchData | src/hooks/useGoogleSheets.ts:16-54 | after one fetch: a success shows the parsed rows with no error; a failure keeps the previous rows with the failure's message |
| SheetSource.StaleResponseWins | src/hooks/useGoogleSheets.ts:56-68 | two overlapping fetches whose older response lands last leave the older data on screen |
| StatusIndicator.GetStatusConfig | src/components/dashboard/StatusIndicator.tsx:6-33 | delivered, in progress and pending each get their own style exactly when the lower-cased status matches; anything else gets the muted style with no glow |
| StatusIndicator.Render | src/components/dashboard/StatusIndicator.tsx:36-42 | the badge shows the status as given, styled by its lower-cased form |
| StatusIndicator.CaseInsensitive | src/components/dashboard/StatusIndicator.tsx:6 | statuses that differ only in letter case get the same style |
| StatusIndicator.ConfigsDistinct | src/components/dashboard/StatusIndicator.tsx:8-31 | the four styles all differ |
| Dashboard.OrZero | src/components/dashboard/Dashboard.tsx:33-35 | a missing or empty cell becomes "0"; a non-empty cell is kept |
| Dashboard.CleanPrice | src/components/dashboard/Dashboard.tsx:35 | definition (first rupee sign, then first comma removed); see `Dashboard.CleanPriceRemovesOne`, `Dashboard.GroupedPriceExample` |
| Dashboard.PriceValue | src/components/dashboard/Dashboard.tsx:35-36 | definition; see `Dashboard.EmptyPriceIsZero`, `Dashboard.PriceExample` |
| Dashboard.ProductValue | src/components/dashboard/Dashboard.tsx:33 | definition; see `Dashboard.EmptyProductsIsZero` |
| Dashboard.CleanPriceRemovesOne | src/components/dashboard/Dashboard.tsx:35 | cleaning a price removes one rupee sign and one comma when present, and no others |
| Dashboard.EmptyPriceIsZero | src/components/dashboard/Dashboard.tsx:35-36 | a missing price, or one that cleans to nothing, counts as 0 |
| Dashboard.EmptyProductsIsZero | src/components/dashboard/Dashboard.tsx:33 | a missing or empty product count counts as 0 |
| Dashboard.PriceExample | src/components/dashboard/Dashboard.tsx:35-36 | "₹1,200" counts as 1200 |
| Dashboard.GroupedPriceExample | src/components/dashboard/Dashboard.tsx:35-36 | "₹1,00,000" counts as 100, because only its first comma goes |
| Dashboard.Add | src/components/dashboard/Dashboard.tsx:33-36 | adding NaN to anything gives NaN; otherwise the numbers add |
| Dashboard.Sum | src/components/dashboard/Dashboard.tsx:33-37 | definition (the reduce from 0); see `Dashboard.SumNaN`, `Dashboard.SumNonNegative` |
| Dashboard.TotalProducts | src/components/dashboard/Dashboard.tsx:33 | definition; see `Dashboard.ProductsNaN`, `Dashboard.SeriesMatchCards` |
| Dashboard.TotalRevenue | src/components/dashboard/Dashboard.tsx:34-37 | definition; see `Dashboard.RevenueNaN`, `Dashboard.RevenueNonNegative`, `Dashboard.SeriesMatchCards` |
| Dashboard.SumNaN | src/components/dashboard/Dashboard.tsx:33-37 | a sum is NaN exactly when one of its terms is NaN |
| Dashboard.SumNonNegative | src/components/dashboard/Dashboard.tsx:33-37 | a sum of non-negative numbers is a non-negative number |
| Dashboard.RevenueNaN | src/components/dashboard/Dashboard.tsx:34-37 | the revenue total is NaN exactly when some row's price cannot be read |
| Dashboard.ProductsNaN | src/components/dashboard/Dashboard.tsx:33 | the product total is NaN exactly when some row's count cannot be read |
| Dashboard.RevenueNonNegative | src/components/dashboard/Dashboard.tsx:34-37 | readable non-negative prices give a non-negative revenue |
| Dashboard.HasStatus | src/components/dashboard/Dashboard.tsx:39-40 | definition (`item.Status?.toLowerCase() === s`); see `Dashboard.CountsDisjoint`, `Dashboard.DeliveredShowsGreen` |
| Dashboard.CountStatus | src/components/dashboard/Dashboard.tsx:39-40 | a status count never exceeds the number of rows |
| Dashboard.CountsDisjoint | src/components/dashboard/Dashboard.tsx:39-40 | the delivered and in-progress counts together never exceed the number of rows |
| Dashboard.ConversionRate | src/components/dashboard/Dashboard.tsx:41 | the rate is a percentage between 0 and 100, such that rate times total is 100 times delivered |
| Dashboard.ComputeMetrics | src/components/dashboard/Dashboard.tsx:29-51 | no metrics without rows; otherwise the client total is the row count, the products and revenue fields are the two reduce sums, the two counts are the rows with that status, and the rate is the delivered share as a percentage |
| Dashboard.ShortName | src/components/dashboard/Dashboard.tsx:58-64 | a chart label is the client's first word, or "Client" when there is none, and never holds a space |
| Dashboard.RevenueSeries | src/components/dashboard/Dashboard.tsx:57-60 | definition (one point per row); see `Dashboard.SeriesMatchCards` |
| Dashboard.ProductSeries | src/components/dashboard/Dashboard.tsx:63-66 | definition (one point per row); see `Dashboard.SeriesMatchCards` |
| Dashboard.SeriesMatchCards | src/components/dashboard/Dashboard.tsx:33-66 | both series have one point per row with the same labels, and their values add up to the card totals |
| Dashboard.CardsMatchCharts | src/components/dashboard/Dashboard.tsx:33-66 | the revenue and products cards show exactly the sums of the revenue and product bars, `NaN` included |
| Dashboard.StatusKey | src/components/dashboard/Dashboard.tsx:70 | a histogram key is the lower-cased status when the cell is present and non-empty, and "unknown" when it is missing or empty; it is never empty, has no capital letter, and is "delivered" exactly for a delivered row |
| Dashboard.Tally | src/components/dashboard/Dashboard.tsx:69-73 | definition (the dictionary after each increment); see `Dashboard.TallyCounts` |
| Dashboard.FirstSeen | src/components/dashboard/Dashboard.tsx:69-75 | definition (the order keys enter the dictionary); see `Dashboard.FirstSeenKeys` |
| Dashboard.TallyCounts | src/components/dashboard/Dashboard.tsx:69-73 | the tally has a key for each status present, holding the number of rows with it |
| Dashboard.FirstSeenKeys | src/components/dashboard/Dashboard.tsx:75 | the histogram's key order lists every status once |
| Dashboard.TallyTotal | src/components/dashboard/Dashboard.tsx:69-73 | the tallied counts add up to the number of rows |
| Dashboard.Capitalize | src/components/dashboard/Dashboard.tsx:76 | definition (first character upper-cased); see `Dashboard.CapitalizeInjective` |
| Dashboard.CapitalizeInjective | src/components/dashboard/Dashboard.tsx:76 | capitalizing distinct lower-case keys gives distinct names |
| Dashboard.SeriesOf | src/components/dashboard/Dashboard.tsx:75-78 | one slice per distinct key; see `Dashboard.SeriesCounts`, `Dashboard.SeriesCovers`, `Dashboard.SeriesNamesDistinct` |
| Dashboard.SeriesCounts | src/components/dashboard/Dashboard.tsx:75-78 | each slice is a capitalized key with its number of occurrences |
| Dashboard.SeriesCovers | src/components/dashboard/Dashboard.tsx:69-78 | every row's status appears as a slice with its count |
| Dashboard.SeriesNamesDistinct | src/components/dashboard/Dashboard.tsx:75-78 | no two slices share a name |
| Dashboard.SeriesTotal | src/components/dashboard/Dashboard.tsx:69-78 | the slices' values add up to the number of keys |
| Dashboard.StatusSeries | src/components/dashboard/Dashboard.tsx:68-78 | definition; see `Dashboard.StatusSeriesShape` |
| Dashboard.StatusSeriesShape | src/components/dashboard/Dashboard.tsx:69-78 | the status slices have distinct names and add up to the number of rows |
| Dashboard.StatusDistribution | src/components/dashboard/Dashboard.tsx:69-78 | the reduce loop and the entries map produce the status series |
| Dashboard.DeliveredSliceValue | src/components/dashboard/Dashboard.tsx:39-78 | the "Delivered" slice holds the same count as the delivered card |
| Dashboard.DeliveredSlicePresent | src/components/dashboard/Dashboard.tsx:39-78 | when some row is delivered, the chart has a "Delivered" slice with that count |
| Dashboard.DeliveredKeyCount | src/components/dashboard/Dashboard.tsx:39-70 | the "delivered" key occurs once for each delivered row |
| Dashboard.DeliveredShowsGreen | src/components/dashboard/Dashboard.tsx:39 | a row counts as delivered exactly when its badge gets the delivered style |
| Dashboard.StatusCell | src/components/dashboard/Dashboard.tsx:251 | a record without a "Status" cell makes the badge fail (`toLowerCase` of `undefined`); otherwise the badge is the status indicator for that cell |
| Dashboard.StatusTexts | src/components/dashboard/Dashboard.tsx:226-251 | definition (every record's status, or failure at the first record without one); see `Dashboard.StatusTextsSpec` |
| Dashboard.StatusTextsSpec | src/components/dashboard/Dashboard.tsx:226-251 | the statuses are missing exactly when some record has no "Status" cell, and otherwise are each record's cell in order |
| Dashboard.StatusColumn | src/components/dashboard/Dashboard.tsx:226-251 | definition (one badge per status); see `Dashboard.StatusColumnRenders` |
| Dashboard.StatusColumnRenders | src/components/dashboard/Dashboard.tsx:226-251 | the table fails exactly when some record's badge fails, and otherwise holds one badge per record, in order |
| Dashboard.MissingStatusBreaksTable | src/components/dashboard/Dashboard.tsx:39-251 | a record without a "Status" cell still lets the cards be computed, counts under "unknown" and not as delivered, but makes the client table fail |
| Dashboard.ChartData | src/components/dashboard/Dashboard.tsx:53-81 | no rows give three empty series; otherwise the revenue, product and status series |
| Dashboard.SelectView | src/components/dashboard/Dashboard.tsx:83-113 | loading wins; otherwise a non-empty error message shows the error view with that message; otherwise the main view |
| Dashboard.FailureView | src/components/dashboard/Dashboard.tsx:97-111 | a failed response shows "Failed to fetch data"; an Error with an empty message shows the main view |
| Dashboard.ChatFlag.constructor | src/components/dashboard/Dashboard.tsx:26 | the chat starts closed |
| Dashboard.ChatFlag.Toggle | src/components/dashboard/Dashboard.tsx:116 | the header button flips the flag |
| Dashboard.ChatFlag.Close | src/components/dashboard/Dashboard.tsx:312 | the panel's close button closes it |
| Dashboard.ToggleTwice | src/components/dashboard/Dashboard.tsx:116 | two presses of the header button restore the flag |
| DataVisualization.PaletteDistinct | src/components/dashboard/DataVisualization.tsx:33-40 | the palette holds six different colours |
| DataVisualization.AddColors | src/components/dashboard/DataVisualization.tsx:43-48 | every item keeps its fields and gets the colour of its position |
| DataVisualization.IsMoney | src/components/dashboard/DataVisualization.tsx:58 | definition (the name includes "Price" or "Revenue"); see `DataVisualization.LineOf` |
| DataVisualization.ColorPeriod | src/components/dashboard/DataVisualization.tsx:46 | colours repeat every six items |
| DataVisualization.NeighboursDistinct | src/components/dashboard/DataVisualization.tsx:46 | items fewer than six apart get different colours |
| DataVisualization.ColorAt | src/components/dashboard/DataVisualization.tsx:46 | definition; see `DataVisualization.ColorPeriod`, `DataVisualization.NeighboursDistinct` |
| DataVisualization.LineOf | src/components/dashboard/DataVisualization.tsx:55-64 | a tooltip line is captioned by the entry's name or "Value"; numbers are formatted, with the money prefix exactly for price or revenue entries |
| DataVisualization.TooltipWith | src/components/dashboard/DataVisualization.tsx:50-68 | the tooltip shows only when active with a non-empty payload, one line per entry in order |
| DataVisualization.TooltipAsWritten | src/components/dashboard/DataVisualization.tsx:50-68 | definition (the tooltip with the prefix as it stands at line 59); see `DataVisualization.MojibakePrefix` |
| DataVisualization.Tooltip | src/components/dashboard/DataVisualization.tsx:50-68 | definition (the tooltip with the rupee sign); see `DataVisualization.RupeePrefix` |
| DataVisualization.MojibakePrefix | src/components/dashboard/DataVisualization.tsx:59 | as written, a revenue tooltip shows three stray characters instead of the rupee sign |
| DataVisualization.RupeePrefix | src/components/dashboard/DataVisualization.tsx:57-61 | with the fix, a revenue entry shows the rupee sign |
| MetricCard.Abs | src/components/dashboard/MetricCard.tsx:44 | the magnitude is non-negative and equals the change or its negation |
| MetricCard.PositiveGuard | src/components/dashboard/MetricCard.tsx:24 | definition (`change && change > 0`: the number 0 for a zero change); see `MetricCard.ZeroChangeAsWritten` |
| MetricCard.NegativeGuard | src/components/dashboard/MetricCard.tsx:25 | definition (`change && change < 0`); see `MetricCard.ZeroChangeAsWritten` |
| MetricCard.Guarded | src/components/dashboard/MetricCard.tsx:42-43 | definition (React draws the icon for true, nothing for false, "0" for 0); see `MetricCard.ZeroChangeAsWritten` |
| MetricCard.TrendAsWritten | src/components/dashboard/MetricCard.tsx:38-45 | the block appears exactly when a change is given |
| MetricCard.ZeroChangeAsWritten | src/components/dashboard/MetricCard.tsx:24-43 | as written, a change of 0 shows two stray "0" texts before "0%" |
| MetricCard.TrendBlock | src/components/dashboard/MetricCard.tsx:38-45 | with boolean guards the block never holds a stray "0" and always ends with the magnitude |
| MetricCard.TrendCases | src/components/dashboard/MetricCard.tsx:24-44 | rising is green with the up icon, falling pink with the down icon, and zero muted with neither |
| MetricCard.TrendAgreesOffZero | src/components/dashboard/MetricCard.tsx:24-25 | the fix changes nothing for a non-zero change |
| MetricCard.Glow | src/components/dashboard/MetricCard.tsx:62-63 | cyan when the gradient names cyan; otherwise purple when it names purple; otherwise pink |
| MetricCard.GlowNamesColour | src/components/dashboard/MetricCard.tsx:62-63 | a card glows other than pink exactly when its gradient names cyan or purple |
| MetricCard.SecondaryNotCyan | src/components/dashboard/Dashboard.tsx:155 | "bg-gradient-secondary" holds the letters of "cyan", but not the word |
| MetricCard.DashboardCardGlowsPink | src/components/dashboard/Dashboard.tsx:147-172 | all four dashboard cards glow pink |
| Notifications.UnreadCount | src/components/ui/notifications-menu.tsx:36 | the unread count never exceeds the list length |
| Notifications.NoneUnread | src/components/ui/notifications-menu.tsx:36 | the count is zero exactly when every notification is read |
| Notifications.UnreadAppend | src/components/ui/notifications-menu.tsx:36 | counting over two lists joined together gives the sum of their counts |
| Notifications.Badge | src/components/ui/notifications-menu.tsx:43-47 | the badge appears exactly when something is unread, and shows the count |
| Notifications.ItemButtons | src/components/ui/notifications-menu.tsx:80-87 | the check button shows exactly for unread items; the dismiss button always shows |
| Notifications.FixedListBadge | src/components/ui/notifications-menu.tsx:11-36 | the built-in list shows a badge of 2 |
| ChatBot.Reply | src/components/dashboard/ChatBot.tsx:61-83 | the reply is the body when non-empty, else the success text; non-ok and offline get their own texts |
| ChatBot.FixedRepliesDistinct | src/components/dashboard/ChatBot.tsx:63-79 | the three fixed replies differ |
| ChatBot.IsBlankInput | src/components/dashboard/ChatBot.tsx:33 | definition (`!content.trim()`); see `ChatBot.Panel.BeginSend` |
| ChatBot.Panel.CanSubmit | src/components/dashboard/ChatBot.tsx:188 | definition (the send button is enabled); see `ChatBot.FreshPanelDisabled`, `ChatBot.SendLeavesDisabled` |
| ChatBot.Panel.constructor | src/components/dashboard/ChatBot.tsx:20-29 | only the greeting, an empty input, not loading |
| ChatBot.Panel.SetInput | src/components/dashboard/ChatBot.tsx:180 | typing sets the input and nothing else |
| ChatBot.Panel.BeginSend | src/components/dashboard/ChatBot.tsx:33-44 | blank content changes nothing; other content is appended as typed, and the input clears while loading starts |
| ChatBot.Panel.CompleteSend | src/components/dashboard/ChatBot.tsx:59-85 | the reply for the outcome is appended and loading ends |
| ChatBot.Panel.SendMessage | src/components/dashboard/ChatBot.tsx:32-87 | a non-blank send appends the user message and the bot reply, keeps earlier messages, clears the input and ends loading |
| ChatBot.Panel.Submit | src/components/dashboard/ChatBot.tsx:89-92 | submitting sends the current input |
| ChatBot.FreshPanelDisabled | src/components/dashboard/ChatBot.tsx:188 | the send button starts disabled |
| ChatBot.SendLeavesDisabled | src/components/dashboard/ChatBot.tsx:183-188 | during and after a send the button is disabled, until new text is typed |

## Left out

- The network is not modelled. The CSV download (src/hooks/useGoogleSheets.ts:21-28) and the webhook call (src/components/dashboard/ChatBot.tsx:48-57) are represented only by how they ended, which is an input.
- Timers and the component lifecycle are left out: the 30-second auto-refresh and its cleanup (src/hooks/useGoogleSheets.ts:56-63), React's effects, memoisation and rendering. Overlapping fetches are covered only by the one interleaving in `SheetSource.StaleResponseWins`.
- ChatBot.Panel.SendMessage: its promise to keep earlier messages holds only between refreshes. The panel is rendered only in the main view (src/components/dashboard/Dashboard.tsx:312), and each 30-second refresh sets `loading` and shows the loading view (src/components/dashboard/Dashboard.tsx:83-95). That unmounts the panel, so the transcript goes back to the greeting and a reply still in flight is lost. The model has no unmount.
- `Dashboard.ComputeMetrics`: the conversion rate is kept as an exact rational, not as the one-decimal string that `toFixed(1)` gives.
- Number formatting is not modelled: `toLocaleString` in the cards and tooltip, and `Math.round` in the average-products tile (src/components/dashboard/Dashboard.tsx:304).
- JsText.ParseInt: reads base-10 digits only. It leaves out hexadecimal prefixes and the loss of precision above 2^53.
- MetricCard.TrendAsWritten: takes a real change. It leaves out `NaN`, which React would draw as the text "NaN".
- JsText.Trim: handles ASCII white space only.
- JsText.ToLower: handles ASCII letters only.
- Dashboard.Capitalize and JsText.UpperChar: `charAt(0).toUpperCase()` is modelled on ASCII letters only. JavaScript's Unicode-aware upper-casing maps "ı" and "i" both to "I", and "ſ" to "S". `Dashboard.CapitalizeInjective`, `Dashboard.SeriesNamesDistinct` and `Dashboard.StatusSeriesShape` are therefore proved for the model, and hold for the source only when the status texts are ASCII.
- JsText.TrimStart: the white-space skip inside `parseInt` covers ASCII white space only, like `JsText.Trim`. JavaScript also skips Unicode spaces such as U+00A0 and U+FEFF, so `JsText.ParseInt` reads `None` where JavaScript would read a number after such a space.
- Markup, styling, icons and the chart library are out of scope: JSX layout, Tailwind classes other than the glow choice, recharts.
- JavaScript object key semantics are not modelled, in the histogram or in the parse. In the histogram, integer-like keys are enumerated first; the model keeps keys in first-seen order, and the facts about the series are stated independently of order. In the histogram, a status that lower-cases to a prototype name also goes wrong: for `constructor`, `acc['constructor'] || 0` (src/components/dashboard/Dashboard.tsx:71) starts from the `Object` function, so that slice's value becomes a string; for `__proto__` the assignment is ignored and the slice disappears. In both, a key spelled `__proto__` is special: `row['__proto__'] = value` on `{}` (src/hooks/useGoogleSheets.ts:42) creates no own key. `Csv.RowOf` and `Csv.RowKeys` treat it like any other header, so for such a header the record's keys are not the trimmed header names.
- Message ids and timestamps come from the clock (`Date.now`) and are not modelled, and neither is the scroll-to-bottom effect.
- DataVisualization.TooltipWith: leaves out the heading that shows the hovered label above the lines (src/components/dashboard/DataVisualization.tsx:54).
- `console.error` logging is not modelled.
- The "Mark all read" button (src/components/ui/notifications-menu.tsx:53-55) has no handler and changes nothing. The list itself is a constant, so neither dismissing nor the check mark changes state.
- The initial reply text at src/components/dashboard/ChatBot.tsx:59 is always overwritten before use, so it never appears and is not modelled.
- These files are not part of this model: tailwind.config.ts, src/components/ui/settings-menu.tsx, src/components/dashboard/DashboardHeader.tsx and src/pages/NotFound.tsx. The header's chat toggle is modelled by `Dashboard.ChatFlag.Toggle`.

## Findings

| source | as written | input that shows it | evidently intended | confidence | as-written member | corrected member |
|---|---|---|---|---|---|---|
| src/components/dashboard/DataVisualization.tsx:59 | the money prefix is the three characters "â‚¹", the UTF-8 bytes of the rupee sign read as Windows-1252 | a tooltip entry named "Revenue" with value 1200 | the rupee sign "₹", as on the revenue card (src/components/dashboard/Dashboard.tsx:164) | high, not executed | DataVisualization.TooltipAsWritten | DataVisualization.Tooltip |
| src/components/dashboard/MetricCard.tsx:24-43 | `change && change > 0` is the number 0 when the change is 0, and React draws that 0 as text | a card with change 0 | no icon and no stray text for a zero change | medium, not executed (the dashboard's own cards pass non-zero changes) | MetricCard.TrendAsWritten | MetricCard.TrendBlock |
