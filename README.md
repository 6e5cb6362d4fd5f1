# Expense tracker core, modelled in Dafny

This project models the parts of a Django expense tracker that compute
something from what the user has recorded:

- **Spending analytics** (`apps/ai/services.py`):
  - the anomaly detector (`detect_anomalies`), a z-score test of each recent expense against the user's other expenses of that category in the last 30 days;
  - the month-over-month dashboard (`get_quick_insights`);
  - the two linear forecasts over the last 90 days: `generate_predictions` (four times a category's average) and `generate_budget_recommendations` (the same with a 20% buffer).
- **Voice and receipt parsing** (`apps/voice/services.py`):
  - the intent and slot extraction of spoken commands (`_parse_command_text` and its `_extract_*` helpers);
  - the receipt text parser (`_parse_receipt_text`);
  - ending a voice assistant session (`end_session`).
- **Small stateful rules**:
  - a budget's and a budget category's `remaining` and `percentage_used`;
  - a goal's `progress_percent`;
  - a notification's `mark_as_read`;
  - the bulk "mark as read" request (`validate_notification_ids`, then `save`);
  - the analytics report date-range check.

How the model is built:

- Database tables are sequences of rows, in the order the query returns them. A filter is a sequence filter. `objects.create` appends to the returned list. An in-place update is a class whose fields the method reassigns.
- Decimal amounts are exact `real`s. Voice and receipt amounts are integer cents.
- Dates are civil dates with leap years. The clock (`timezone.now()`) is a parameter: `today` or `now`.
- Python's `lower`, `split`, `strip`, `replace`, `in` and the regular expressions used are written out over `seq<char>`, with the leftmost-match and non-overlapping `findall` semantics the code relies on.

Several things one might expect of such a tracker are not in the code, and the model follows the code:

- There are no severity tiers for anomalies and no risk levels for recommendations.
- Forecast confidence is a fixed 0.85 whatever the sample count.
- There is no "forecast of zero" for a category without expenses: such a category gets no prediction.
- Income rows are not excluded from the analytics.
- A report whose start and end dates are equal is accepted.

Modules, one file each:

- `Wrappers`: `Option`, `Result`.
- `Dates`: calendar arithmetic and the month windows.
- `Statistics`: sum, mean, population variance, the two-standard-deviation rule stated on squares.
- `Ledger`: the expense table and its filters and groupings.
- `Anomalies`, `Insights`, `Forecasts`.
- `PyArith`: Python's int/`Decimal`/`float` mixing, for the findings below.
- `Text`: string primitives.
- `VoiceCommands`, `Receipts`, `VoiceSessions`, `Ratios`, `Notifications`, `Reports`.

## Model

| member | source | states |
|---|---|---|
| `Dates.SubtractDays` | apps/ai/services.py:264 | `today - n days` is a valid date, on or before today, and strictly before it when n > 0 |
| `Dates.AddDays` | apps/ai/services.py:49 | `today + n days` is a valid date, on or after today, strictly after when n > 0 |
| `Dates.SubtractUndoesAdd` | apps/ai/services.py:49 | going n days forward and n days back returns to the same date |
| `Dates.MonthStart` | apps/ai/services.py:184 | `today.replace(day=1)`: same year and month, day 1, not after today |
| `Dates.PriorMonthEnd` | apps/ai/services.py:196 | the day before the month start: a valid date before the current month |
| `Dates.PriorMonthStart` | apps/ai/services.py:195 | `(month_start - 30 days).replace(day=1)`: a first of a month, not after the prior month's end |
| `Dates.PriorMonthWindow` | apps/ai/services.py:195-196 | the prior-month window ends on the last day of the previous month and starts on its first day, except in March, where 30 days back from March 1 reach January and the window covers January and February |
| `Statistics.Mean` | apps/ai/services.py:282 | `np.mean`: the mean times the count is the sum |
| `Statistics.Variance` | apps/ai/services.py:283 | the population variance (`np.std` squared) is never negative |
| `Statistics.ZeroVarianceIffAllEqual` | apps/ai/services.py:283-285 | the spread is zero exactly when all amounts are equal, which is when the detector skips the expense |
| `Statistics.MeanBetweenBounds` | apps/ai/services.py:282 | the mean lies between any lower and upper bound of the amounts |
| `Statistics.BeyondTwoStdIffZScore` | apps/ai/services.py:285-288 | the rule on squares holds exactly when `std > 0` and `abs(x - mean) / std > 2`, for the root `std` of the variance |
| `Statistics.OutsideExpectedRange` | apps/ai/services.py:288-293 | a flagged amount lies outside `[mean - 2*std, mean + 2*std]`, and that range is well formed |
| `Statistics.AtTwoStdNotFlagged` | apps/ai/services.py:288 | an amount exactly two standard deviations away is not flagged: the comparison is strict |
| `Ledger.Since` | apps/ai/services.py:21-24 | the rows that occur are exactly the user's rows dated on or after the start, in ledger order; how often each occurs is `Ledger.SinceCounts` |
| `Ledger.SinceCounts` | apps/ai/services.py:21-24 | each matching row occurs in the queryset as often as in the ledger, every other row never, so `count()` and the aggregates see the filtered rows with their multiplicity |
| `Ledger.Between` | apps/ai/services.py:198-202 | the rows that occur are exactly the user's rows dated within both bounds, inclusive; how often each occurs is `Ledger.BetweenCounts` |
| `Ledger.BetweenCounts` | apps/ai/services.py:198-202 | each row within the bounds occurs as often as in the ledger, every other row never |
| `Ledger.InCategory` | apps/ai/services.py:240 | the rows that occur are exactly the rows of the category; how often each occurs is `Ledger.InCategoryCounts` |
| `Ledger.InCategoryCounts` | apps/ai/services.py:240 | each row of the category occurs as often as in the input, every other row never |
| `Ledger.Amounts` | apps/ai/services.py:281 | `values_list('amount')`: one amount per row, in order |
| `Ledger.Average` | apps/ai/services.py:242-244 | `Avg('amount')`: the average times the count is the total |
| `Ledger.Categories` | apps/ai/services.py:30-34 | the grouping's rows: each category with an expense, once each |
| `Ledger.CategoryNonEmpty` | apps/ai/services.py:30-34 | every group has at least one expense, so its average exists |
| `Ledger.TotalByCategory` | apps/ai/services.py:192 | the total of the rows is the sum of the per-category totals |
| `Ledger.OutsideCounts` | apps/ai/services.py:192 | the rows left after taking one category's group away keep their multiplicity, and no row of that category remains |
| `Anomalies.WindowStart` | apps/ai/services.py:264 | the 30-day window start is a valid date strictly before today |
| `Anomalies.ComparisonSet` | apps/ai/services.py:274-278 | the rows that occur are exactly the user's expenses in the window with the target's category, except the target itself; how often each occurs is `Anomalies.ComparisonSetCounts` |
| `Anomalies.ComparisonSetCounts` | apps/ai/services.py:274-278 | each row passing the filters occurs as often as in the ledger, every other row never, so the mean and the spread are taken over the rows with their multiplicity |
| `Anomalies.CheckExpense` | apps/ai/services.py:280-296 | an alert is for the target, carries its amount, and only arises with a positive spread and an amount beyond two standard deviations |
| `Anomalies.DetectAnomalies` | apps/ai/services.py:261-298 | the loop returns exactly the alerts of the window's expenses in order; each alert belongs to the user and passes the rule |
| `Anomalies.AlertsForExactly` | apps/ai/services.py:272-296 | an alert is in the result exactly when it is the check's alert for a visited expense |
| `Anomalies.AlertsForSound` | apps/ai/services.py:272-296 | every alert of the loop belongs to the user, passes the rule, and is the check's alert for a visited expense |
| `Anomalies.NotOwnComparison` | apps/ai/services.py:278 | an expense is never compared with itself |
| `Anomalies.NoAlertWithoutOthers` | apps/ai/services.py:280 | with no other same-category expense in the window, there is no alert |
| `Anomalies.NoAlertWhenOthersEqual` | apps/ai/services.py:283-285 | others with one and the same amount never flag anything, however large the expense |
| `Anomalies.AlertIffZScore` | apps/ai/services.py:280-288 | with others present, an alert is raised exactly when `std > 0` and the z-score exceeds 2 |
| `Anomalies.AlertScoreAndRange` | apps/ai/services.py:286-293 | each alert has `anomaly_score > 2`, and its amount lies outside the recorded expected range |
| `Anomalies.EqualOthersExample` | apps/ai/services.py:283-285 | others of 10, 10, 10, 10 and an expense of 100: no alert |
| `Anomalies.StrictThresholdExample` | apps/ai/services.py:288 | others of 10 and 12: 13 is exactly at two deviations and not flagged; 14 is flagged |
| `Insights.TopAmong` | apps/ai/services.py:213-215 | the top category is one of the groups and no group has a larger total |
| `Insights.ChangePercent` | apps/ai/services.py:207-210 | `(total - last) / last * 100` when the prior total is positive, otherwise 0 |
| `Insights.AverageExpense` | apps/ai/services.py:223 | `total / max(count, 1)`: the average times `max(count, 1)` is the total |
| `Insights.GetQuickInsights` | apps/ai/services.py:181-226 | the month's count and total; change against the prior month; the average; and a top category that has an expense and the largest total. With no expense: zeros and no top category |
| `Insights.TopCategoryAtLeastAverage` | apps/ai/services.py:213-223 | with non-negative amounts, the top category's total is at least the average expense |
| `Forecasts.HistoryStart` | apps/ai/services.py:20 | the 90-day window start is a valid date strictly before today |
| `Forecasts.PredictionFor` | apps/ai/services.py:38-57 | a prediction is for its category, from a non-empty group, and is four times the group's average |
| `Forecasts.PredictionsFor` | apps/ai/services.py:38-57 | one prediction per group |
| `Forecasts.GeneratePredictions` | apps/ai/services.py:17-59 | nothing for an empty window. Otherwise one prediction per category with an expense in the window, each for the user, four times the average, dated 30 days ahead, confidence 0.85 |
| `Forecasts.GroupsNonEmpty` | apps/ai/services.py:30-34 | every group of the grouping has an expense, so its average exists |
| `Forecasts.PredictionsForShape` | apps/ai/services.py:30-57 | a category has a prediction exactly when it is one of the groups |
| `Forecasts.RecommendationFor` | apps/ai/services.py:242-256 | the recommended amount is 1.2 times the current spending, which is four times the category's average |
| `Forecasts.RecommendationsFor` | apps/ai/services.py:239-257 | at most one recommendation per listed category |
| `Forecasts.GenerateBudgetRecommendations` | apps/ai/services.py:228-259 | a category gets a recommendation exactly when it is listed and has an expense in the window; each carries the 20% buffer and confidence 0.85 |
| `Forecasts.RecommendationsForShape` | apps/ai/services.py:239-257 | each recommendation is for a listed category that has expenses, and such a category gets one |
| `PyArith.Mul` | apps/ai/services.py:247 | `a * b` fails with `TypeError` exactly for `Decimal` with `float`, and is otherwise the product |
| `PyArith.Sub` | apps/ai/services.py:286 | `a - b` fails with `TypeError` exactly for `Decimal` with `float`, and is otherwise the difference |
| `PyArith.AverageAsWritten` | apps/ai/services.py:242-244 | `Avg(...) or 0`: the average's value, kept as a `Decimal` exactly when it is non-zero (a zero `Decimal` is falsy and becomes the `int` 0) |
| `PyArith.RecommendedAsWrittenRaises` | apps/ai/services.py:242-247 | `avg_monthly * 4 * 1.2` raises `TypeError` exactly when the average is non-zero; a zero average gives the float 0 |
| `PyArith.RecommendationsAsWrittenNeverRecommend` | apps/ai/services.py:239-257 | as written, the service succeeds exactly when every listed category with expenses has a zero average; it then returns the intended recommendations, all of 0 |
| `PyArith.WrittenSucceedsIffZero` | apps/ai/services.py:239-257 | the success condition of the service as written, by induction over the categories |
| `PyArith.WrittenAgreesWhenOk` | apps/ai/services.py:239-257 | when the service as written succeeds, its list equals the intended one |
| `PyArith.WrittenZeroStep` | apps/ai/services.py:239-257 | a further category with expenses and a zero average adds the same recommendation of 0 to the list as written and to the intended list |
| `PyArith.ZeroAverageExample` | apps/ai/services.py:242-256 | one food expense of 0.00: the service as written recommends 0 for food, as the intended one does |
| `PyArith.RecommendationDiscrepancy` | apps/ai/services.py:247 | one food expense of 10: the intended rule recommends 48, while the code as written raises |
| `PyArith.AlertsAsWrittenNeverAlert` | apps/ai/services.py:272-296 | as written, the detector never reports an alert: it raises as soon as some comparison has a spread |
| `PyArith.AnomalyDiscrepancy` | apps/ai/services.py:286 | others of 10 and 12 with an expense of 14: the intended rule flags it, while the code as written raises |
| `Text.Lower` | apps/voice/services.py:80 | `lower()`: same length, each character lowered |
| `Text.ContainsAt` | apps/voice/services.py:83 | `p in s` exactly when some suffix of `s` starts with `p` |
| `Text.Words` | apps/voice/services.py:157 | `split()`: non-empty words without whitespace; its content is pinned down by `Text.WordsOfWord` and `Text.WordsAtSpace` |
| `Text.WordsOfWord` | apps/voice/services.py:157 | a non-empty text without whitespace splits into itself alone |
| `Text.WordsAtSpace` | apps/voice/services.py:157 | a whitespace character separates: the words of `s + [c] + t` are those of `s` followed by those of `t`, which with `Text.WordsOfWord` determines `split()` on every text |
| `Text.WordLengthPrefix` | apps/voice/services.py:157 | the leading word of a text ends at its first whitespace, whatever follows |
| `Text.WordsSkip` | apps/voice/services.py:157 | leading whitespace contributes no word |
| `Text.WordsFirst` | apps/voice/services.py:157 | a text that starts with a non-space character splits into its leading word followed by the words of the rest |
| `Text.StripTrims` | apps/voice/services.py:191 | `strip()` keeps a slice with only whitespace around it, neither starting nor ending with whitespace |
| `Text.SplitOn` | apps/voice/services.py:339 | `split('\n')`: at least one piece, none containing the separator |
| `Text.JoinSplit` | apps/voice/services.py:339 | joining the pieces with the separator gives the text back |
| `Text.RemoveAll` | apps/voice/services.py:189 | `replace(p, '')` never lengthens the text; what it removes is stated by `Text.RemoveAllAbsent` and `Text.RemoveAllAtFirst` |
| `Text.RemoveAllAbsent` | apps/voice/services.py:189 | a text in which `p` does not occur is left as it is |
| `Text.RemoveAllAtFirst` | apps/voice/services.py:189 | the leftmost occurrence of `p` is deleted, what precedes it is kept, and the rest is processed after it; with the no-occurrence case this determines `replace(p, '')` |
| `Text.RemoveAllOccurrenceFirst` | apps/voice/services.py:189 | an occurrence at the very start is deleted and the rest processed after it |
| `Text.NoOccurrenceInTail` | apps/voice/services.py:189 | if `p` does not occur before the end of its first occurrence, it does not occur there after the first character either |
| `Text.NotAtHead` | apps/voice/services.py:189 | no occurrence starts before the leftmost one |
| `Text.RemoveAllKeepsHead` | apps/voice/services.py:189 | a character before the leftmost occurrence is kept in front of the rest |
| `Text.RemoveAllAtStart` | apps/voice/services.py:189 | an occurrence at the start is dropped |
| `Text.RemoveAllSkip` | apps/voice/services.py:189 | a character where no occurrence starts is kept |
| `Text.RemoveAllKeeps` | apps/voice/services.py:189 | every character kept comes from the text |
| `Text.DigitRun` | apps/voice/services.py:140 | `\d+` is greedy: the run is all digits and stops at a non-digit or the end |
| `VoiceCommands.AnyContained` | apps/voice/services.py:83 | `any(word in t for word in ks)` exactly when some keyword occurs |
| `VoiceCommands.DetectIntent` | apps/voice/services.py:80-89 | on the lowered, stripped text: add/create/new first, then show/list/view, then budget/limit, otherwise query |
| `VoiceCommands.IntentIgnoresCase` | apps/voice/services.py:80 | the intent of a text and of its lower-case form agree |
| `VoiceCommands.DollarMatchAt` | apps/voice/services.py:140 | a match starts at a digit, or at `$` followed by a digit |
| `VoiceCommands.FirstDollarIndex` | apps/voice/services.py:141 | the leftmost position where a match starts: none before it, one at it |
| `VoiceCommands.FirstDollarMatch` | apps/voice/services.py:141-144 | no match exactly when no position matches; otherwise the leftmost match is taken |
| `VoiceCommands.FirstNumberWord` | apps/voice/services.py:157-160 | none exactly when no word is a number word; otherwise the first such word's value |
| `VoiceCommands.ExtractAmount` | apps/voice/services.py:135-162 | the first dollar match wins; otherwise the first number word's value; otherwise 0 |
| `VoiceCommands.NoDigitsNoDollarMatch` | apps/voice/services.py:140-143 | a text without digits has no dollar match |
| `VoiceCommands.NumberWordFallback` | apps/voice/services.py:157-160 | without digits, a text whose first word is a number word yields that word's value |
| `VoiceCommands.TwentyFiveDollarsExample` | apps/voice/services.py:157-160 | "twenty five dollars" yields 20, not 25 |
| `VoiceCommands.DollarSignExample` | apps/voice/services.py:140-145 | "$12.50 or 3 dollars" yields 12.50: the first match wins |
| `VoiceCommands.OneDecimalExample` | apps/voice/services.py:140 | "12.5 dollars" yields 5: a single decimal digit is not a cents part |
| `VoiceCommands.FirstMatching` | apps/voice/services.py:176-178 | the index of the first table entry whose keywords occur |
| `VoiceCommands.ExtractCategory` | apps/voice/services.py:164-180 | "other" exactly when no keyword of any category occurs; otherwise the first category in table order with a keyword present |
| `VoiceCommands.CategoryIsKnown` | apps/voice/services.py:166-180 | the category is one of the six names or "other" |
| `VoiceCommands.RemovePhrases` | apps/voice/services.py:185-189 | removing the phrases never lengthens the text |
| `VoiceCommands.ExtractDescription` | apps/voice/services.py:182-191 | the loop's result is the text with the phrases removed in order, then stripped; it is no longer than the text and uses only its characters |
| `VoiceCommands.ReplaceDoesNotRescan` | apps/voice/services.py:189 | one `replace` pass leaves a new occurrence it creates: "foforr" becomes "for" |
| `VoiceCommands.FirstMerchant` | apps/voice/services.py:196-201 | the first word that starts upper-case and is longer than 3, or "" exactly when there is none |
| `VoiceCommands.ExtractFilters` | apps/voice/services.py:222-239 | `date` exactly when "today" occurs (set to today); otherwise a `date_range` of week or month; `category` exactly when a category is found; never both date keys |
| `VoiceCommands.ParseCommandText` | apps/voice/services.py:78-133 | the command's intent is the detected one; an add command carries the extracted amount, category, description and merchant with confidence 0.9; a show command its filters and a budget command its category, with 0.8; a query the original text, with 0.7 |
| `VoiceCommands.QueryLeastConfident` | apps/voice/services.py:93-133 | a command with an intent is reported with more confidence than a bare query, and 0.9 is reported exactly for an add command |
| `Receipts.PriceAt` | apps/voice/services.py:358 | a `\$?\d+\.\d{2}` match ends two digits after a point |
| `Receipts.Prices` | apps/voice/services.py:358-359 | every value found is a match somewhere in the text, and a text with no match yields none |
| `Receipts.NoPointNoPrices` | apps/voice/services.py:358-361 | a text without a decimal point has no price |
| `Receipts.MaxOf` | apps/voice/services.py:364 | `max`: an element at least as large as every element |
| `Receipts.ReceiptAmount` | apps/voice/services.py:357-364 | 0 when no price occurs; otherwise the largest price found |
| `Receipts.SlashNumberAt` | apps/voice/services.py:367 | `\d{1,2}/`: one or two digits followed by a slash |
| `Receipts.YearAt` | apps/voice/services.py:367 | `\d{2,4}`: two to four digits |
| `Receipts.DateMatchAt` | apps/voice/services.py:367 | a date match has a year of two to four digits |
| `Receipts.FirstDateIndex` | apps/voice/services.py:368 | `re.search`: the leftmost position where a date matches |
| `Receipts.FirstDateMatch` | apps/voice/services.py:367-368 | `re.search`: no match exactly when no position matches; otherwise the match at the leftmost position that matches |
| `Receipts.Strptime` | apps/voice/services.py:370-373 | `%m/%d/%Y` succeeds exactly for a four-digit year of at least 1 and a real calendar date; otherwise `None` |
| `Receipts.ReceiptDate` | apps/voice/services.py:366-373 | no match gives no date; otherwise the date is `strptime` of the first match, so a date found is valid and is the month, day and year of the leftmost match |
| `Receipts.TwoDigitYearDropped` | apps/voice/services.py:367-373 | a first match with a two-digit year gives no date, though the pattern accepts it |
| `Receipts.StripAll` | apps/voice/services.py:351 | one stripped line per line |
| `Receipts.FirstCandidate` | apps/voice/services.py:350-354 | the index of the first line that qualifies as the merchant |
| `Receipts.Head` | apps/voice/services.py:350 | `lines[:3]`: at most three lines, three when there are that many |
| `Receipts.ReceiptMerchant` | apps/voice/services.py:349-354 | "" or a line longer than 3 that does not start with `$` |
| `Receipts.ReceiptMerchantFirst` | apps/voice/services.py:350-354 | the first qualifying stripped line among the first three is the merchant |
| `Receipts.ReceiptMerchantNone` | apps/voice/services.py:350-354 | the merchant is "" exactly when none of the first three stripped lines qualifies |
| `Receipts.ItemOf` | apps/voice/services.py:377-384 | an item is a line containing item/product/service with a price; its amount is the line's first price |
| `Receipts.ReceiptItemsExactly` | apps/voice/services.py:375-384 | an item is in the list exactly when some stripped line yields it |
| `Receipts.PickMerchant` | apps/voice/services.py:349-354 | the loop returns the specified merchant |
| `Receipts.CollectItems` | apps/voice/services.py:375-384 | the loop returns the items of the stripped lines, in order |
| `Receipts.ParseReceiptText` | apps/voice/services.py:337-386 | each field is its rule's result: merchant, largest price, date, items; confidence 0.8 |
| `VoiceSessions.Ended` | apps/voice/services.py:457-458 | an ended session is inactive with its end time, everything else kept |
| `VoiceSessions.EndMatching` | apps/voice/services.py:452-459 | the rows the lookup finds are ended, the others are kept as they were |
| `VoiceSessions.NothingLeftToEnd` | apps/voice/services.py:452-462 | after ending, the lookup finds nothing, so a second call returns False |
| `VoiceSessions.EndIdempotent` | apps/voice/services.py:449-462 | ending twice is ending once, whatever the second time |
| `VoiceSessions.EndKeepsUniqueIds` | apps/voice/models.py:46 | ending keeps `session_id` unique |
| `VoiceSessions.SessionTable.constructor` | apps/voice/models.py:46 | a table starts from rows with unique session ids |
| `VoiceSessions.SessionTable.EndSession` | apps/voice/services.py:449-462 | returns True exactly when the user had an active session with that id; that row becomes inactive with end time `now`; nothing else changes; ids stay unique |
| `Ratios.PercentOf` | apps/budgets/models.py:50-53 | with a positive whole, the percentage times the whole is 100 times the part; otherwise 0 |
| `Ratios.PercentOfHundred` | apps/budgets/models.py:50-53 | the percentage is at least, exactly or above 100 as the part is at least, equal to or above the whole; negative exactly for a negative part |
| `Ratios.PercentOfMonotone` | apps/budgets/models.py:51-52 | a larger part gives a larger percentage |
| `Ratios.BudgetRemaining` | apps/budgets/models.py:45-47 | remaining plus spent is the amount; it is negative exactly when overspent (no clamp) |
| `Ratios.BudgetPercentageUsed` | apps/budgets/models.py:49-53 | spent over amount in percent for a positive amount, else 0 |
| `Ratios.BudgetRemainingAgrees` | apps/budgets/models.py:45-53 | nothing remains exactly when at least 100% is used; overspent exactly above 100% |
| `Ratios.CategoryRemaining` | apps/budgets/models.py:72-74 | remaining plus spent is the allocation; negative exactly when overspent |
| `Ratios.CategoryPercentageUsed` | apps/budgets/models.py:76-80 | spent over the allocation in percent for a positive allocation, else 0 |
| `Ratios.CategoryRemainingAgrees` | apps/budgets/models.py:72-80 | a category's remaining and percentage agree as for a budget |
| `Ratios.GoalProgressPercent` | apps/investments/models.py:191-195 | current over target in percent for a positive target, else 0 |
| `Ratios.GoalProgressUnclamped` | apps/investments/models.py:193-195 | exactly 100 at the target, above 100 past it, and growing with the current amount |
| `Notifications.MarkedAsRead` | apps/notifications/models.py:67-71 | unread becomes read at `now`; read or archived is unchanged; title, message, type, priority, id and owner are kept |
| `Notifications.MarkedAsReadIdempotent` | apps/notifications/models.py:67-71 | marking twice is marking once, and the first reading time is kept |
| `Notifications.MarkedAsReadNeverUnread` | apps/notifications/models.py:68-69 | afterwards the notification is not unread, and it is archived exactly when it was |
| `Notifications.Notification.constructor` | apps/notifications/models.py:38 | a new notification is unread with no reading time |
| `Notifications.Notification.MarkAsRead` | apps/notifications/models.py:67-71 | the object's fields become the marked record; it is saved once when it was unread, never otherwise |
| `Notifications.SaveReadAt` | apps/notifications/models.py:70-71 | `save()` stores `read_at` exactly when it holds a time, and raises otherwise |
| `Notifications.MarkAsReadAsWrittenFails` | apps/notifications/models.py:67-71 | as written, marking an unread notification raises and leaves it unread, while the corrected rule makes it read at `now`; on other notifications the two agree |
| `Notifications.MatchCount` | apps/notifications/serializers.py:45-49 | the query's count is at most the number of rows |
| `Notifications.OwnedIdsAt` | apps/notifications/serializers.py:45-48 | an id is owned exactly when a row of the user carries it |
| `Notifications.ValidateNotificationIds` | apps/notifications/serializers.py:36-51 | an empty list is refused as empty; a successful validation returns the list unchanged |
| `Notifications.MatchCountIsOwnedListed` | apps/notifications/serializers.py:45-49 | with unique ids, the count is the number of distinct listed ids the user owns |
| `Notifications.ElementsCount` | apps/notifications/serializers.py:49 | a list has at most as many distinct ids as entries, and exactly as many when it has no duplicate |
| `Notifications.ValidateExactly` | apps/notifications/serializers.py:36-51 | validation passes exactly when the list is non-empty, has no duplicate, and every id is a notification of the user |
| `Notifications.SetSelectedRead` | apps/notifications/serializers.py:56-60 | every selected row is read, archived ones included; every other row is unchanged |
| `Notifications.SelectedRows` | apps/notifications/serializers.py:56-59 | exactly the rows with a listed id owned by the user |
| `Notifications.SetSelectedReadKeepsSelection` | apps/notifications/serializers.py:56-61 | the update keeps ids unique and never changes which rows the query selects |
| `Notifications.ValidatedIdsAllRead` | apps/notifications/serializers.py:42-60 | after a validated request, every listed id is a notification of the user that is now read |
| `Notifications.NotificationTable.Validate` | apps/notifications/serializers.py:42-51 | the table's check passes exactly for a non-empty, duplicate-free list of the user's ids |
| `Notifications.NotificationTable.Save` | apps/notifications/serializers.py:53-61 | the table becomes the update's result; the returned rows are read, owned by the user and listed |
| `Reports.ValidateReport` | apps/analytics/serializers.py:19-22 | accepted exactly when the start is on or before the end, returning the data unchanged; refused only when the end is before the start |
| `Reports.SameDayAccepted` | apps/analytics/serializers.py:20 | a range starting and ending on the same day is accepted |

## Left out

- Database, ORM and framework plumbing are not modelled: queries, `create`, `save`, serializers' field declarations and HTTP status codes. Query results are taken in the order the database returns them, which the caller supplies.
- Decimal context rounding (28 significant digits) and float rounding are not modelled: `float(...)` conversions and `Decimal` division are exact in the model.
- Voice and receipt amounts are exact cents rather than floats.
- `Ratios.GoalProgressPercent`: `target_amount` and `current_amount` are money fields. The model compares and divides their decimal amounts, as if `target_amount > 0` compared the amount with 0. Whether the money library accepts a comparison of a money value with the integer 0 is not part of this model, and neither is the currency.
- Dates are not limited to the years 1 to 9999. Python's date arithmetic raises `OverflowError` outside that range; the model's date arithmetic does not.
- Time zones are not modelled. `timezone.now()` is a parameter. Comparing a date column with `now - timedelta(...)` is modelled as comparing dates in the same calendar.
- Character classes (`lower`, `isupper`, `isspace`, `\d`) follow Python for ASCII only. Non-ASCII letters, digits and spaces are not modelled.
- The `reasoning` text of a recommendation and the `features_used` dictionary of a prediction are not modelled. The model keeps the average, count and total in each prediction.
- A tie for the top category is resolved in favour of the first category in query order. The database's order among equal totals is not modelled.
- These operations are left out: `create_session`, `process_session_message`, the chat service, the OCR image pipeline (`_preprocess_image`, `_extract_receipt_data`), the speech stub, and the expense creation from commands and receipts. They delegate to the database or to foreign libraries.
- Concurrency between requests (two `end_session` or `save` calls at once) is not modelled.
- `Receipts.Prices`: its contract states only that every value found is a match and that a text without matches gives none. The left-to-right, non-overlapping order of `findall` is in its definition, not its contract.
- `VoiceCommands.RemovePhrases`: its contract states only that the text does not grow. What it removes follows from `Text.RemoveAll` and `Text.RemoveAllAtFirst`, and `VoiceCommands.ExtractDescription` adds that the result uses only the text's characters.
- `Receipts.StripAll`: its contract states only the length. The per-line content is given by the `Receipts.StripAllAt` lemma.

## Findings

| source | as written | input that shows it | evidently intended | confidence | as-written member | corrected member |
|---|---|---|---|---|---|---|
| apps/ai/services.py:247 | `avg_monthly * 4 * 1.2` multiplies the `Decimal` average by a float, which raises `TypeError` whenever the average is non-zero (a zero average has become the `int` 0 through `or 0`) | one food expense of 10 in the last 90 days | a recommendation of 48 with current spending 40 | not executed | `PyArith.RecommendationsAsWrittenNeverRecommend` (over `PyArith.RecommendationsAsWritten`, shown by `PyArith.RecommendationDiscrepancy`; `PyArith.ZeroAverageExample` shows the zero case) | `Forecasts.GenerateBudgetRecommendations` |
| apps/ai/services.py:286 | `float(expense.amount) - mean` subtracts the `Decimal` mean of the other amounts from a float, which raises `TypeError` whenever the others have a spread | one iteration of the loop: an expense of 14 measured against others of 10 and 12 in the same category | an alert for the expense of 14 (z-score 3) | not executed | `PyArith.AlertsAsWrittenNeverAlert` (over `PyArith.AlertsAsWritten`, shown by `PyArith.AnomalyDiscrepancy`) | `Anomalies.DetectAnomalies` |
| apps/notifications/models.py:70 | `read_at` is assigned a new `DateTimeField` declaration instead of the current time, which `save()` cannot store as a date-time | any unread notification marked as read | the notification read, with `read_at` set to the time of reading | not executed | `Notifications.MarkAsReadAsWrittenFails` (over `Notifications.MarkAsReadAsWritten`) | `Notifications.Notification.MarkAsRead` |
