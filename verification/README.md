# Subscription tracker: a verified model of the store and its views

This project models, in Dafny, the core of a personal subscription-expense
tracker. It covers:

- The subscription store. This is the collection of subscription records,
  plus the search term, category filter, sort key and sort direction. The
  model includes its mutations: add, update, delete, toggle active, and the
  four setters.
- The store's derived views: the filtered and sorted list, the monthly
  total, the upcoming renewals, and the per-category summary.
- The pieces of the pages that compute with the store:
  - the add-subscription form's validation schema, price coercion and
    submission;
  - the notifications page's day count, icon, badge and message, and its
    "all" tab;
  - the subscription card's renewal indicator;
  - the filter bar's category list and sort-direction button.

The store is an immutable `State` value and every operation is a pure
function of it. The clock reading (`now`) and the id that `generateId`
produced are parameters. Dates are integer millisecond instants, and prices
are exact reals.

Modules, one per file:

- `Types`: the record, draft, patch and state datatypes, and the monthly
  price.
- `Seqs`: the order-keeping filter and its laws.
- `Text`: lower-casing, `includes`, and the string `<`.
- `Ordering`: the comparator of the list sort and a stable insertion sort,
  with proofs of permutation, order and stability.
- `Store`: the store's operations and queries.
- `StoreLaws`: invariants the mutations keep and laws relating them.
- `Expenses`: the monthly total and the category summary.
- `Renewal`: the ceiling day count.
- `Notifications`, `Card`, `FilterBar` and `Form`: the page logic.
- `Scenarios`: cross-view properties and worked examples.

`updateSubscription` spreads a `Partial<Subscription>` over the whole record
(store/subscriptions.ts:126), so a patch that carries `id` or `createdAt`
overwrites them. `Store.Merge` takes every field present in the patch, and
`StoreLaws.UpdateCanDuplicateIds` shows that two records can then share an
id.

## Model

| member | source | states |
|---|---|---|
| Types.MonthlyPrice | store/subscriptions.ts:197 | A monthly record contributes its price. A yearly record contributes the amount that, taken twelve times, gives its price. A non-negative price gives a contribution between 0 and the price. |
| Store.InitialStateWellFormed | store/subscriptions.ts:48-98 | The three sample records have distinct ids, ordered timestamps and non-negative prices. |
| Store.NewRecord | store/subscriptions.ts:110-115 | The new record carries every draft field, the generated id, and `now` as both creation and update time. |
| Store.AddSubscription | store/subscriptions.ts:109-119 | Exactly one record is appended. Every earlier record stays in place. The new last record carries the draft, the id and `now`. The filters are untouched. |
| Store.Merge | store/subscriptions.ts:126 | The merged record's update time is `now`. Every other field, `id` and `createdAt` included, comes from the patch when the patch carries it and from the record otherwise. |
| Store.MergeEmptyPatch | store/subscriptions.ts:126 | An empty patch changes only the update time. |
| Store.MergeIdempotent | store/subscriptions.ts:126 | Applying the same patch twice at the same instant equals applying it once. |
| Store.MergePriceOnly | store/subscriptions.ts:126 | A price-only patch changes exactly the price and the update time. |
| Store.UpdateSubscription | store/subscriptions.ts:122-130 | The length is kept. Records with another id are untouched, and records with the id are merged with the patch. An absent id leaves the state unchanged. |
| Store.DeleteSubscription | store/subscriptions.ts:132-136 | Every record with another id keeps all its copies, and every record with the id loses all of them. Afterwards no record has the id. An absent id leaves the state unchanged. |
| StoreLaws.DeleteDistributes | store/subscriptions.ts:134 | On any collection, duplicate ids included, deleting from a concatenation gives the concatenation of deleting from each part, so the order is kept. |
| StoreLaws.DeleteOne | store/subscriptions.ts:134 | A single record is kept exactly when its id differs. With the previous row this fixes the result of every delete. |
| Store.ToggleSubscriptionStatus | store/subscriptions.ts:138-146 | Records with the id flip `isActive` and take `now` as update time, and nothing else in them changes. Other records are untouched. An absent id leaves the state unchanged. |
| Store.SetSearchTerm | store/subscriptions.ts:148 | Sets the search term and leaves everything else as it was. |
| Store.SetFilterCategory | store/subscriptions.ts:149 | Sets the category filter and leaves everything else as it was. |
| Store.SetSortBy | store/subscriptions.ts:150 | Sets the sort key and leaves everything else as it was. |
| Store.SetSortOrder | store/subscriptions.ts:151 | Sets the sort direction and leaves everything else as it was. |
| Store.GetFilteredSubscriptions | store/subscriptions.ts:153-190 | The result holds exactly the records, active or not, that pass the search and the category filter. It is a permutation of them, ordered by the comparator, and records with equal keys keep their store order. |
| Store.NoFilterKeepsAll | store/subscriptions.ts:156-162 | With an empty search and an empty or `all` category, the list is a permutation of the whole collection. |
| Store.SearchIsSubstring | store/subscriptions.ts:157-158 | A record passes the search exactly when the lower-cased term occurs at some position in its lower-cased name or category. |
| Text.LowerChar | store/subscriptions.ts:157 | Maps A-Z to a-z (32 code points up) and keeps every other character. No letter A-Z survives. |
| Text.Lower | store/subscriptions.ts:157 | Lower-casing keeps the length and works character by character. |
| Text.Contains | store/subscriptions.ts:157-158 | The empty needle is always contained. A needle longer than the text never is. |
| Text.ContainsIffOccurs | store/subscriptions.ts:157-158 | `includes` holds exactly when the needle occurs at some position. |
| Text.LexLessIrreflexive | store/subscriptions.ts:184-185 | No string is below itself. |
| Text.LexLessAsymmetric | store/subscriptions.ts:184-185 | Two strings are never each below the other. |
| Text.LexLessTransitive | store/subscriptions.ts:184-185 | String `<` is transitive. |
| Text.LexLessTotal | store/subscriptions.ts:184-185 | Any two different strings are ordered one way or the other. |
| Ordering.Compare | store/subscriptions.ts:164-187 | The comparator returns -1, 0 or 1. It returns 0 exactly when the keys (lower-cased name, price or renewal instant) are equal. It is negative exactly when the key is smaller under `asc`, or larger under `desc`. |
| Ordering.KeyFacts | store/subscriptions.ts:184-186 | For each key the strict order is asymmetric and total, and its ties are exactly equal keys. |
| Ordering.CompareAntisymmetric | store/subscriptions.ts:184-186 | Swapping the two arguments negates the comparator. |
| Ordering.NotBeforeTransitive | store/subscriptions.ts:184-186 | "Does not go before" is transitive, so the comparator is a consistent order. |
| Ordering.SortBy | store/subscriptions.ts:164-187 | Sorting keeps the records as a multiset and keeps the length. |
| Ordering.InsertSorted | store/subscriptions.ts:164-187 | Inserting into a sorted list gives a sorted list. |
| Ordering.SortBySorted | store/subscriptions.ts:164-187 | The sort output is ordered by the comparator. |
| Ordering.InsertKeyClass | store/subscriptions.ts:164-187 | Insertion keeps, for every key, the records with that key in their original relative order. |
| Ordering.SortByStable | store/subscriptions.ts:164-187 | The sort keeps, for every key, the records with that key in store order. |
| Ordering.SortBySpec | store/subscriptions.ts:164-187 | The sort output is a permutation of the input, ordered, and stable. |
| Ordering.SortedByRenewal | store/subscriptions.ts:212 | An ascending renewal-date sort gives non-decreasing renewal instants. |
| Ordering.SortByRenewal | store/subscriptions.ts:212 | Sorting by renewal instant gives the same records, in non-decreasing renewal order, with ties in input order. |
| Store.GetUpcomingRenewals | store/subscriptions.ts:201-213 | The result holds exactly the active records with `now <= renewal <= now + days * DAY`, where days defaults to 7. It is in ascending renewal order, ties in store order, and the sort state plays no part. |
| Store.ZeroDayWindowIsOneInstant | store/subscriptions.ts:201-213 | With `days = 0`, only records renewing at exactly the current millisecond qualify. |
| Store.NothingDueAtInstant | store/subscriptions.ts:201-213 | With `days = 0` and no record renewing at exactly `now`, the list is empty. |
| Store.TodayRenewalMissed | store/subscriptions.ts:201-213 | At 10:00 UTC on 2024-02-15 the zero-day list of the sample store is empty, although Netflix renews that day. The day-based list contains Netflix. |
| Store.UpcomingRenewalsByDay | store/subscriptions.ts:201-213 | The day-based list holds exactly the active records whose renewal day lies between today and `days` days later, in ascending renewal order. |
| Store.ByDayListsTodaysRenewals | store/subscriptions.ts:201-213 | An active record renewing on the current day is always listed by the day-based window. |
| StoreLaws.AddKeepsIdsUnique | store/subscriptions.ts:109-119 | Adding under an id that no record has keeps ids unique. |
| StoreLaws.DeleteUndoesAdd | store/subscriptions.ts:109-136 | Deleting the id of a record that was just added gives back the earlier state. |
| StoreLaws.DeleteRemovesOne | store/subscriptions.ts:132-136 | With unique ids, deleting the id at position k removes exactly that record and keeps the others in order. |
| StoreLaws.FilterKeepsIdsUnique | store/subscriptions.ts:134 | Filtering never creates a duplicate id. |
| StoreLaws.DeleteKeepsIdsUnique | store/subscriptions.ts:132-136 | Delete keeps ids unique. |
| StoreLaws.ToggleKeepsIdsUnique | store/subscriptions.ts:138-146 | Toggle keeps ids unique. |
| StoreLaws.UpdateWithoutIdKeepsIdsUnique | store/subscriptions.ts:122-130 | An update whose patch has no `id` keeps ids unique. |
| StoreLaws.UpdateCanDuplicateIds | store/subscriptions.ts:126 | A patch carrying another record's id makes two records share an id. |
| StoreLaws.AddKeepsTimestampsOrdered | store/subscriptions.ts:109-119 | Add keeps every record's creation time no later than its update time. |
| StoreLaws.ToggleTimestamps | store/subscriptions.ts:138-146 | When the clock has not gone back, toggle keeps creation times and never moves an update time backwards. |
| StoreLaws.UpdateTimestamps | store/subscriptions.ts:122-130 | The same holds for an update whose patch leaves `createdAt` alone. |
| StoreLaws.ToggleTwice | store/subscriptions.ts:138-146 | Toggling twice restores every `isActive`. Only the update time of the matching records has changed. |
| StoreLaws.UpdateIdempotent | store/subscriptions.ts:122-130 | Repeating an update at the same instant changes nothing further. |
| Expenses.SumMonthlyAppend | store/subscriptions.ts:196-198 | The summed monthly price of a concatenation is the sum of the two parts. |
| Expenses.SumMonthlyNonNegative | store/subscriptions.ts:196-198 | Non-negative prices give a non-negative sum. |
| Expenses.GetTotalMonthlyExpense | store/subscriptions.ts:192-199 | The total is 0 when no record is active, and never negative when no price is. |
| Expenses.AllActiveTotal | store/subscriptions.ts:192-199 | When every record is active, the total sums all of them. |
| Expenses.AddChangesTotal | store/subscriptions.ts:192-199 | Adding a record raises the total by its monthly price when it is active, and by nothing otherwise. |
| Expenses.ToggleOffRemovesFromTotal | store/subscriptions.ts:192-199 | Deactivating an active record lowers the total by exactly its monthly price, and the record stays in the collection. |
| Expenses.SummaryOfKeys | store/subscriptions.ts:219-230 | The summary's keys are exactly the categories of the reduced records. |
| Expenses.SummaryOfEntries | store/subscriptions.ts:219-230 | Each entry counts the reduced records of that category and sums their monthly prices. |
| Expenses.GetCategorySummary | store/subscriptions.ts:215-231 | There is one key per category of an active record and no other. Each entry is the count and the monthly-price sum of that category's active records. |
| Expenses.SummaryOfSums | store/subscriptions.ts:219-230 | Over any duplicate-free listing of its keys, the summary adds up to the number of records and their summed monthly prices. |
| Expenses.SummaryMatchesTotal | store/subscriptions.ts:215-231 | The category totals sum to the monthly total, and the counts sum to the number of active records. |
| Expenses.BucketOfSummary | store/subscriptions.ts:215-231 | Every category, listed or not, reads as the count and total of its active records. A category that is not listed reads as zero. |
| Expenses.ToggleOffRemovesFromSummary | store/subscriptions.ts:215-231 | Deactivating an active record takes one record and its monthly price out of its own category's entry. Every other category stays as it was. |
| Expenses.SummaryOfAsWritten | store/subscriptions.ts:219-230 | The reduce over a `{}` accumulator gives the dictionary summary with every inherited object property name missing. |
| Expenses.CategorySummaryAsWritten | store/subscriptions.ts:215-231 | The source's summary has as keys the categories of active records, less the inherited names. Each entry it has equals the corrected summary's. |
| Expenses.AsWrittenAgreesElsewhere | store/subscriptions.ts:219-230 | When no category is an inherited object property name, the summary the source builds equals the dictionary summary. |
| Expenses.PrototypeCategoryDropped | store/subscriptions.ts:222-224 | Take one active record in category "constructor" with price 10. The source's summary is empty while the total is 10. The dictionary summary lists the category with count 1 and total 10. |
| Expenses.DefaultMonthlySum | store/subscriptions.ts:48-98 | The sample prices sum to 269.97 a month. |
| Expenses.InitialTotal | store/subscriptions.ts:48-98 | The initial state's monthly total is 269.97. |
| Renewal.DaysUntil | app/notifications/page.tsx:29-35 | The day count `d` is the ceiling: `(d-1)*DAY < renewal - now <= d*DAY`. It is negative exactly when the renewal is a full day or more in the past. It is 0 exactly when the renewal lies within the last day up to `now`. |
| Renewal.DaysUntilUnique | app/notifications/page.tsx:29-35 | Only one whole number has that bracketing. |
| Renewal.DaysUntilMonotone | app/notifications/page.tsx:29-35 | A later renewal is never fewer days away. |
| Renewal.DaysInWindow | app/notifications/page.tsx:29-35 | A renewal between `now` and `n` days later is 0 to `n` days away. |
| Renewal.WholeDaysAhead | app/notifications/page.tsx:29-35 | Exactly `k` days ahead reads as `k`. |
| Notifications.NotificationIcon | app/notifications/page.tsx:37-42 | The icon is the triangle for d < 0, the bell for 0, the clock for 1..3 and the calendar above 3. Each icon is chosen exactly in its range. |
| Notifications.NotificationVariant | app/notifications/page.tsx:44-49 | The badge is destructive exactly for d <= 0, default exactly for 1..3, and secondary exactly above 3. |
| Notifications.NotificationText | app/notifications/page.tsx:51-56 | The message is late by \|d\| exactly for d < 0, "today" exactly for 0, "tomorrow" exactly for 1, and "d days left" exactly from 2 up. |
| Notifications.NoticeRoundTrip | app/notifications/page.tsx:51-56 | The signed day count can be read back from the message. |
| Notifications.IconMatchesVariant | app/notifications/page.tsx:37-49 | A destructive badge goes with the triangle or the bell, a default badge with the clock, and a secondary badge with the calendar. |
| Notifications.RowOf | app/notifications/page.tsx:174-203 | A row's day count is the ceiling bracket of the renewal. Its icon and badge are those of that count, and its message reads back to it. |
| Notifications.AllTab | app/notifications/page.tsx:304-307 | The "all" tab holds exactly the active records, as a permutation, in non-decreasing renewal order, with ties in store order. |
| Notifications.AllTabDaysAscending | app/notifications/page.tsx:304-309 | Day counts never decrease down the "all" tab. |
| Notifications.UpcomingRowsNotOverdue | app/notifications/page.tsx:25-26 | Rows of the n-day upcoming lists have day counts between 0 and n. None shows the triangle or a late message. |
| Notifications.TodayRowsRingTheBell | app/notifications/page.tsx:27 | A record of the zero-day list, whose length is the page's "today" count, renders with the bell and "today" wherever it is shown. |
| Notifications.TodayList | app/notifications/page.tsx:27 | The day-based "today" list holds exactly the active records renewing on the current day, in renewal order. |
| Notifications.TodayListRows | app/notifications/page.tsx:27 | Rows of the day-based list are 0 or 1 days away. Once the renewal instant has passed, the row shows the bell and "today". |
| Card.RenewalLabel | components/dashboard/subscription-card.tsx:189-197 | The label is overdue by \|d\| exactly when d < 0, "today" exactly when d = 0, and "d days remaining" exactly when d > 0. |
| Card.IsExpiringSoon | components/dashboard/subscription-card.tsx:57 | A renewal is expiring soon when it is 0 to 7 days away, today included. |
| Card.IsOverdue | components/dashboard/subscription-card.tsx:58 | A renewal is overdue when its day count is negative. |
| Card.BarColourOf | components/dashboard/subscription-card.tsx:199-206 | The bar is red exactly when d < 0, orange exactly when 0 <= d <= 7, and green exactly when d > 7. |
| Card.LabelRoundTrip | components/dashboard/subscription-card.tsx:189-197 | The signed day count can be read back from the label. |
| Card.CardAgreesWithNotifications | components/dashboard/subscription-card.tsx:48-54 | The card and the notifications page report the same day count. They agree on "overdue" and on "today". |
| Card.Indicator | components/dashboard/subscription-card.tsx:189-206 | The indicator is shown exactly for active records. Its label reads back to the day count, and the bar is red exactly when the label says overdue. |
| Card.UpcomingWeekIsOrange | components/dashboard/subscription-card.tsx:57-58 | Every record in the default seven-day upcoming list is expiring soon, so it has an orange bar. |
| Card.OrangeMeansThisWeek | components/dashboard/subscription-card.tsx:57-58 | An orange bar means the renewal is later than one day before `now` and at most seven days after it. |
| FilterBar.Distinct | components/dashboard/subscription-filters.tsx:31-33 | Deduplication gives no duplicates, and holds exactly the strings of the input. |
| FilterBar.DistinctKeepsFirstOccurrenceOrder | components/dashboard/subscription-filters.tsx:31-33 | Distinct strings keep the order of their first occurrence. |
| FilterBar.Categories | components/dashboard/subscription-filters.tsx:31-33 | The category choices have no duplicates. They are exactly the categories of the records, active or not. |
| FilterBar.CategoryOffered | components/dashboard/subscription-filters.tsx:31-33 | The category of any record in the collection is offered. |
| FilterBar.SummaryCategoriesOffered | components/dashboard/subscription-filters.tsx:31-33 | Every category in the expense summary can be chosen in the filter. |
| FilterBar.ChosenCategoryShown | components/dashboard/subscription-filters.tsx:56 | With no search term, choosing an offered category shows every record of it, so the list is not empty. |
| FilterBar.ToggleSortOrder | components/dashboard/subscription-filters.tsx:87 | The button always changes the direction. |
| FilterBar.ToggleTwiceIsIdentity | components/dashboard/subscription-filters.tsx:87 | Toggling twice gives back the direction. |
| FilterBar.ClickSortOrder | components/dashboard/subscription-filters.tsx:87 | A click changes the direction and nothing else. |
| FilterBar.ClickTwice | components/dashboard/subscription-filters.tsx:87 | Two clicks give back the state. |
| FilterBar.ClickReversesComparisons | components/dashboard/subscription-filters.tsx:87 | After a click, a goes before b exactly when b went before a. |
| FilterBar.ClickKeepsRecords | components/dashboard/subscription-filters.tsx:87 | After a click the list holds the same records, and no earlier record goes before a later one under the old direction, so the old order is reversed. |
| Form.ParseCycle | app/add-subscription/page.tsx:57 | The cycle parses exactly when it is "monthly" or "yearly", and parses to the cycle of that name. |
| Form.CycleRoundTrip | app/add-subscription/page.tsx:57 | The name of a cycle parses back to that cycle. |
| Form.NoProblemsIffRulesHold | app/add-subscription/page.tsx:48-58 | A form has no failing field exactly when every required string is non-empty, the price is not negative and the cycle is one of the two names. |
| Form.Validate | app/add-subscription/page.tsx:48-58 | A form is accepted exactly when every rule holds. A rejection names every failing field and only those. An acceptance carries the entered values. |
| Form.CoercePrice | app/add-subscription/page.tsx:200 | An unparsable price becomes 0, and a parsed number is kept. |
| Form.CoercedPriceRule | app/add-subscription/page.tsx:200 | A coerced price fails the price rule exactly when a negative number was typed. |
| Form.DefaultFormRejected | app/add-subscription/page.tsx:103-114 | The untouched form is refused for exactly name, renewal date, payment method and category. |
| Form.ToDraft | app/add-subscription/page.tsx:116-122 | The draft is active, uses the "CreditCard" icon, and copies every other field from the checked form. |
| Form.Submit | app/add-subscription/page.tsx:116-122 | Submission succeeds exactly when validation does, and a refusal reports the failing fields. A success appends one active "CreditCard" record carrying the entered values, the id and `now`. |
| Form.SubmitRaisesTotal | app/add-subscription/page.tsx:116-122 | A successful submission raises the monthly total by the new record's monthly price. |
| Form.BlankPriceSubmitsFree | app/add-subscription/page.tsx:200 | If every other field is filled, a blank price submits a record priced 0. |
| Scenarios.DeactivatedStaysListed | store/subscriptions.ts:201-213 | A deactivated record is in no upcoming list. It is in the filtered list exactly when it was before. |
| Scenarios.UpcomingOfOne | store/subscriptions.ts:201-213 | The upcoming list of a one-record store is that record exactly when it is active and inside the window, and empty otherwise. |
| Scenarios.NetflixTotal | store/subscriptions.ts:192-199 | Adding an active monthly record of 49.99 to an empty store gives a total of 49.99. |
| Scenarios.NetflixScenario | store/subscriptions.ts:201-213 | Add an active monthly record of 49.99 renewing in 3 days to an empty store. The seven-day list is exactly that record, the two-day list is empty, and the total is 49.99. |
| Scenarios.YearlyScenario | store/subscriptions.ts:197 | An active yearly record priced 1200 adds exactly 100 to the monthly total. |
| Scenarios.StableTieScenario | store/subscriptions.ts:164-187 | "Zed" and "Ann" with equal prices stay in store order under a price sort in either direction. |
| Scenarios.PriceUpdateScenario | store/subscriptions.ts:122-130 | A price-only update changes exactly the price and update time of that record, and no other record. |

## Left out

- Persistence: the `persist` wrapper and its storage key are not modelled. The model covers the state transitions, not the I/O.
- Store.NewRecord: gives `createdAt` and `updatedAt` the single instant `now`. The source reads the clock twice (store/subscriptions.ts:113-114), so the two can differ by a millisecond. Store.GetUpcomingRenewals likewise takes `today` and the window end from one `now`, where the source reads the clock twice (store/subscriptions.ts:203-204).
- `generateId`, the clock and `new Date()`: the id and `now` are parameters. Uniqueness of a generated id is a precondition (`IdFresh`) of the laws that need it.
- Date parsing and time zones: renewal dates and timestamps are integer millisecond instants. The form's date text becomes an instant through the `dateOf` parameter of `Form.Submit`. Invalid dates (`NaN` instants) are not modelled.
- Store.GetUpcomingRenewals: the window end is `now + days * DAY`. The source moves the local calendar date with `setDate`, which differs by an hour across a daylight-saving change.
- Floating point: prices, sums and the division by 12 are exact reals. IEEE-754 rounding, `NaN`, `Infinity` and `toFixed` formatting are not modelled.
- Types.MonthlyPrice: states the yearly case as `r * 12 == price` over reals, not the rounded float quotient.
- Text.Lower and Text.LowerChar: lower-case only A-Z. Other scripts' case mappings are not modelled.
- Text.LexLess: compares characters by code point. JavaScript compares UTF-16 code units, which differs only for characters outside the Basic Multilingual Plane.
- Ordering.Compare: the `default: return 0` branch of the comparator is unreachable, because the sort key is a three-valued datatype.
- Form.Validate: `min(1)` counts UTF-16 code units, while here it is "non-empty". The two agree on emptiness.
- Form.CoercePrice: the parsing done by `parseFloat` is a parameter. An unparsable input arrives as `None`.
- The `try`/`catch` around `addSubscription` in `onSubmit`: the pure add cannot fail.
- All rendering, animation, routing, toasts, clipboard and date formatting.
- The message texts (Arabic strings with a number) are datatypes (`Notice`, `Label`) that carry the number, not formatted strings.

## Findings

| source | as written | input that shows it | evidently intended | confidence | as-written member | corrected member |
|---|---|---|---|---|---|---|
| store/subscriptions.ts:201-213 | The window starts at the current instant, so `getUpcomingRenewals(0)` (the page's "today" count, app/notifications/page.tsx:27 and 74-76) holds only records renewing at exactly the current millisecond. | Sample store at 2024-02-15T10:00Z: Netflix renews 2024-02-15 (midnight UTC), yet the zero-day list is empty (`Store.TodayRenewalMissed`). | The window covers calendar days from today, so a renewal dated today is listed all day. | high, not executed | Store.GetUpcomingRenewals | Store.UpcomingRenewalsByDay |
| store/subscriptions.ts:219-230 | The reduce starts from `{}`. For a category named like an `Object.prototype` member (`constructor`, `toString`, `__proto__`, ...), `summary[category]` is already truthy. The count and total are written onto the inherited value, and no entry appears. | One active record of price 10 in category "constructor": the summary is empty while the total is 10 (`Expenses.PrototypeCategoryDropped`). | A dictionary with no inherited keys (`Object.create(null)` or a `Map`), so every category gets its own entry and the totals add up to the monthly total. | medium, not executed | Expenses.CategorySummaryAsWritten | Expenses.GetCategorySummary |

For the first row, the corrected list is used by `Notifications.TodayList`,
and `Store.ByDayListsTodaysRenewals` proves that it lists every record
renewing today. For the second row, `Expenses.SummaryMatchesTotal` proves the
intended property of the corrected summary: its totals add up to
`getTotalMonthlyExpense`.
