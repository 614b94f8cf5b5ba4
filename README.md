# FinTrack Pro: a verified model of the transaction store

FinTrack Pro is a personal finance tracker. Its data layer is a
browser-side service (`ApiService`) that keeps four entries in local
storage: the token, the user, the transaction list and the category list.
Every service call reads a whole list, changes it and writes it back.
Transactions are soft-deleted: a flag is set and the record stays stored.
The defaults are 13 categories and 3 demo transactions. Three screens
compute over the service's output: the dashboard (the current month's
income, expense, balance and five most recent entries), the reports screen
(six monthly income/expense buckets) and the transactions screen (search,
save payload, create/update dispatch, optimistic delete, category options).
A reference Express backend holds users and transactions in memory. It
authenticates by bearer token and scopes list, create and soft delete to
the token's user.

The Dafny project follows that structure:

| file | module | models |
|---|---|---|
| base.dfy | `Base` | `Option`/`Result`, an order-preserving `Filter` with its membership and count laws, subsequences |
| text.dfy | `Text` | prefix tests, `slice(0, n)`, substring search, ASCII lower-casing, lexicographic order, `split` on a character, zero-padded digits |
| calendar.dfy | `Calendar` | (year, month) pairs, month arithmetic without division, the `YYYY-MM` key, days in a month |
| types.dfy | `Types` | the `User`, `Category` and `Transaction` records, payload and patch shapes, sums of amounts, the fresh-id oracle |
| constants.dfy | `Constants` | the default categories, `MOCK_USER_ID` and the demo transactions |
| api.dfy | `Api` | the `ApiService` class and the specification functions its reads and writes are proved against |
| dashboard.dfy | `Dashboard` | the dashboard figures |
| reports.dfy | `Reports` | the six-month buckets, and the day-overflow in `setMonth` |
| transactions_page.dfy | `TransactionsPage` | search, payload, dispatch, optimistic delete, category options |
| server.dfy | `Server` | the bearer-token middleware, signup, login and the three transaction routes |

Notes on the modelling:

- Amounts are `real`.
- Dates are `YYYY-MM-DD` strings. `getTransactions` sorts by `new Date(date)`; for well-formed ISO dates this is lexicographic order on the strings.
- `Array.prototype.sort` is stable, so it is modelled by a stable insertion sort. The listing is proved to be:
  - sorted newest first;
  - a permutation of the selected records;
  - in stored order within each date.
- Storage entries are `Option` fields: `None` is a missing key.
- Each `async` service call is one atomic method.
- The clock (`now`, `Date.now()`, the current year and month) is a parameter.
- Random ids come from a fresh-id function that returns a string not in the existing list.
- These are function-typed parameters:
  - the server's JWT and bcrypt calls;
  - `parseFloat`;
  - `amount.toString()`.

## Model

| member | source | states |
|---|---|---|
| Api.GetStored | services/api.ts:15-18 | a present entry is returned, an absent one yields the default |
| Api.ListTransactions | services/api.ts:67-79 | the result is sorted by date newest first. Each record appears exactly as often as it is stored if it is not deleted and matches the `type` and the `month` prefix when given, and otherwise not at all. Equal dates keep their stored order |
| Api.FilterTransactions | services/api.ts:67-76 | the three successive filters are one filter by the conjunction of not deleted, kind and month prefix |
| Api.SortByDateDescCorrect | services/api.ts:79 | the sort yields a list ordered by date, newest first, with the same multiset of records |
| Api.SortByDateDescStable | services/api.ts:79 | the records of any one date appear in the sorted list in their input order |
| Api.InsertSorted | services/api.ts:79 | inserting into a sorted list keeps it sorted |
| Api.InsertMultiset | services/api.ts:79 | inserting adds exactly that record |
| Api.InsertWithDate | services/api.ts:79 | insertion goes in front of the records of the same date, and so keeps their order |
| Api.SortedHead | services/api.ts:79 | the head of a sorted listing has the latest date |
| Api.SortedCons | services/api.ts:79 | putting an entry no earlier than every entry of a sorted list at its head keeps it sorted |
| Api.InsertByDate | services/api.ts:79 | computes one step of the stable sort: the record goes in front of the first record with an earlier date. Its properties are in `InsertSorted`, `InsertMultiset` and `InsertWithDate` |
| Api.SortByDateDesc | services/api.ts:79 | computes the sort by the comparator `b.date - a.date` as an insertion sort. Its properties are in `SortByDateDescCorrect` and `SortByDateDescStable` |
| Api.FirstIndex | services/api.ts:100 | -1 exactly when no record has the id, otherwise the first index that has it |
| Api.FindIndex | services/api.ts:100 | the `findIndex` loop returns that first index |
| Api.Merge | services/api.ts:103 | computes `{ ...t, ...data, updatedAt }`: each field from the patch when it has one, else from the record, and `updatedAt` from the clock. Its properties are in `MergeEmptyPatch`, `MergeIgnoresPatchUpdatedAt`, `MergeCanRewriteIdAndUndelete` and `EditKeepsIdentity` |
| Api.MergeEmptyPatch | services/api.ts:103 | merging an empty patch only restamps `updatedAt` |
| Api.MergeIgnoresPatchUpdatedAt | services/api.ts:103 | the `updatedAt` the caller sends is overwritten by the new stamp |
| Api.MergeCanRewriteIdAndUndelete | services/api.ts:103 | a patch can overwrite `id` and clear `deleted` |
| Api.SoftDeleted | services/api.ts:111-114 | computes the list after `txs[idx].deleted = true` at the first index with the id, or the list unchanged. Its properties are in `SoftDeletedChangesOnlyFlag`, `SoftDeleteIdempotent`, `SoftDeletedStillFound` and `DeleteThenListExcludes` |
| Api.SoftDeletedChangesOnlyFlag | services/api.ts:112-114 | a delete keeps the length and the ids. Only the first record with the id changes, and only its `deleted` flag |
| Api.SoftDeleteIdempotent | services/api.ts:112-114 | deleting twice is deleting once |
| Api.SoftDeletedStillFound | services/api.ts:112-114 | a soft-deleted record is still found by id, so a later update reaches it |
| Api.DeleteThenListExcludes | services/api.ts:109-117 | with distinct ids, no listing after a delete shows that id; the record stays stored with the flag set |
| Api.DeleteHidesOnlyFirstMatch | services/api.ts:112-114 | with a duplicated id only the first record is hidden; the second is still listed |
| Api.CreateThenListOnce | services/api.ts:82-95 | a created record with a fresh id is listed exactly once |
| Api.WithoutCategory | services/api.ts:138 | the kept categories are exactly those with a different id, each as often as before and in their order |
| Api.CreateThenDeleteCategory | services/api.ts:126-140 | deleting a just-created category restores the previous list |
| Api.DeleteCategoryRemovesDefault | services/api.ts:135-140 | a default category is deleted like any other: 12 remain |
| Api.ApiService.constructor | services/api.ts:143 | the service starts from whatever storage holds; the module-level demo seed is built at load time |
| Api.ApiService.Login | services/api.ts:26-48 | after login the demo user (`MOCK_USER_ID`, "Demo User", the email) and the `jwt-mock-token-` token are stored and returned. Transactions and all 13 defaults are seeded only when the transactions entry is absent; a stored list, even an empty one, is kept |
| Api.ApiService.Logout | services/api.ts:50-53 | token and user are removed, so not authenticated and no current user; the lists are untouched |
| Api.ApiService.GetCurrentUser | services/api.ts:55-57 | computes the stored user, `None` for null when absent. `Login` and `Logout` state what it reads after each |
| Api.ApiService.IsAuthenticated | services/api.ts:59-61 | true exactly when a token is stored |
| Api.ApiService.StoredTransactions | services/api.ts:67 | computes `getStored(TRANSACTIONS, [])` through `GetStored`, whose contract gives the stored list or the empty one |
| Api.ApiService.GetTransactions | services/api.ts:65-80 | the stored list (empty when absent) passed through the listing specification |
| Api.ApiService.CreateTransaction | services/api.ts:82-95 | exactly one record is appended: payload fields copied, fresh id, `deleted` false, both stamps `now`. The returned value is the stored record and nothing else changes |
| Api.ApiService.UpdateTransaction | services/api.ts:97-107 | a missing id gives "Transaction not found" and no write. Otherwise only the first record with the id is replaced by its merge with the patch and a new `updatedAt`, and that merge is returned |
| Api.ApiService.DeleteTransaction | services/api.ts:109-117 | a missing id writes nothing; otherwise the stored list becomes its soft-deleted form |
| Api.ApiService.GetCategories | services/api.ts:121-124 | the stored list, or the 13 defaults when absent |
| Api.ApiService.CreateCategory | services/api.ts:126-133 | one category with the given fields and a fresh id is appended to the current list (the defaults when absent) and returned |
| Api.ApiService.DeleteCategory | services/api.ts:135-140 | always writes the current list without that id, with no default guard |
| Constants.DefaultIncomeCategories | constants.ts:5-11 | five income categories, all default and without owner |
| Constants.DefaultExpenseCategories | constants.ts:13-22 | eight expense categories, all default and without owner |
| Constants.DefaultCategories | constants.ts:5-22 | 13 categories with pairwise distinct ids, the five income ones first |
| Constants.GenerateMockTransactions | constants.ts:27-78 | three records `tx-1`..`tx-3`: not deleted, owner `MOCK_USER_ID`, USD, non-negative amounts 5000 / 1500 / 120.50, dated the 1st, 2nd and 5th of the month. Each names a default category of its own type by its id and name |
| Constants.NamesDefaultCategoryFind | constants.ts:5-22 | for such a record, looking its category id up in the defaults finds a category of its type with its name |
| Dashboard.MonthTransactions | pages/Dashboard.tsx:24-25 | exactly the transactions whose date starts with the month key, each as often as in the input and in input order |
| Dashboard.MonthIncome | pages/Dashboard.tsx:27 | computes the sum of the income-typed amounts. Its properties are in `IncomeExpenseSplitMonth`, `IncomeExpenseNonnegative` and `ThreeEntryFigures` |
| Dashboard.MonthExpense | pages/Dashboard.tsx:28 | computes the sum of the expense-typed amounts. Its properties are in the same three lemmas |
| Dashboard.Balance | pages/Dashboard.tsx:29 | computes income minus expense over the month's transactions. Its properties are in `BalanceOrderIndependent`, `DemoMonthFigures` and `DashboardOverServiceList` |
| Dashboard.IncomeExpenseSplitMonth | pages/Dashboard.tsx:27-28 | income plus expense is the sum over the whole month |
| Dashboard.IncomeExpenseNonnegative | pages/Dashboard.tsx:27-28 | with non-negative amounts both sums are non-negative |
| Dashboard.BalanceOrderIndependent | pages/Dashboard.tsx:29 | the balance does not depend on the order of the list |
| Dashboard.ThreeEntryFigures | pages/Dashboard.tsx:27-28 | over one income and two expense entries, the sums are those amounts |
| Dashboard.DemoMonthFigures | pages/Dashboard.tsx:24-29 | on the demo seed the month keeps all three entries: income 5000, expense 1620.50, balance 3379.50 |
| Dashboard.DashboardOverServiceList | pages/Dashboard.tsx:18-29 | the balance of the sorted service listing equals the balance of the stored records that are not deleted |
| Dashboard.Recent | pages/Dashboard.tsx:92 | the first min(5, n) transactions, in order |
| Reports.MonthlyData | pages/Reports.tsx:15-35 | six buckets. Bucket j is for the month 5 - j before the current one and carries that month's label, the income sum and the non-income sum of the transactions whose first seven date characters are its key |
| Reports.EmptyBuckets | pages/Reports.tsx:16-24 | the counting-down loop creates six keys, oldest first, each with a zero bucket and its label, and nothing else |
| Reports.EmptyBucketStep | pages/Reports.tsx:18-23 | one pass of that loop: the next month's key is not yet in the record, and adding it with a zero bucket extends the six-key layout by one, earlier buckets unchanged |
| Reports.NextKeyFresh | pages/Reports.tsx:21-23 | the key of the next month differs from every key already created |
| Reports.AddToBucket | pages/Reports.tsx:27-31 | one `forEach` step: the bucket of the transaction's key gains its amount, as income if income-typed and as expense otherwise; other buckets and the key set are unchanged |
| Reports.BucketsStep | pages/Reports.tsx:26-32 | the bucket sums stay equal to the sums over the prefix of the list processed so far |
| Reports.TrendMonth | pages/Reports.tsx:18-20 | the month 5 - j before the current one, a valid month |
| Reports.TrendIncome | pages/Reports.tsx:27-29 | the reference definition of a bucket's income: the sum over the income-typed transactions whose first seven date characters are the key. `MonthlyData` is proved equal to it; `TrendSnoc`, `TrendOrderIndependent` and `TrendMatchesDashboard` state its properties |
| Reports.TrendExpense | pages/Reports.tsx:27-30 | the reference definition of a bucket's expense: the same sum over every other transaction of that key. The same lemmas state its properties |
| Reports.TrendBucket | pages/Reports.tsx:23-32 | the reference definition of bucket j: its label and those two sums for the month 5 - j before the current one. `MonthlyData` is proved equal to it, and `TrendIgnoresOutside` states its property |
| Reports.TrendMonthsConsecutive | pages/Reports.tsx:18-22 | the six months are consecutive and end at the current month |
| Reports.TrendKeysDistinct | pages/Reports.tsx:21 | the six keys are pairwise distinct |
| Reports.TrendSnoc | pages/Reports.tsx:29-30 | one more transaction adds its amount to income if income-typed, otherwise to expense, in its month only |
| Reports.TrendIgnoresOutside | pages/Reports.tsx:27-28 | a transaction outside the six keys changes no bucket |
| Reports.TrendOrderIndependent | pages/Reports.tsx:26-32 | the bucket sums do not depend on the order of the transactions |
| Reports.TrendBucketTotal | pages/Reports.tsx:29-30 | a bucket's income plus expense is the sum of every transaction of that month |
| Reports.TrendMatchesDashboard | pages/Reports.tsx:27-30 | for a 7-character key the bucket's sums are the dashboard's income and expense for that month |
| Reports.BucketMonthsAsWritten | pages/Reports.tsx:18-21 | the six months `setMonth(getMonth() - i)` lands on, including the roll into the next month when the day does not exist there |
| Reports.SetMonthOverflowDropsMonths | pages/Reports.tsx:19-20 | on 31 March 2025 the loop yields December 2024 and March 2025 twice each, and November 2024 and February 2025 not at all |
| Reports.BucketMonths | pages/Reports.tsx:18-22 | the intended months: bucket j is 5 - j months before the current month |
| Reports.BucketMonthsDistinct | pages/Reports.tsx:18-22 | the intended six months are pairwise distinct |
| TransactionsPage.SearchTransactions | pages/Transactions.tsx:36-47 | an empty term returns the list unchanged. The result is an order-preserving subsequence. For any other term, a record is kept exactly when it matches the lower-cased term, as often as it occurs in the input |
| TransactionsPage.SearchMatches | pages/Transactions.tsx:40-44 | computes the search condition on one record with `includes`. `SearchMatchesIff` restates it as occurrence in the three texts |
| TransactionsPage.SearchMatchesIff | pages/Transactions.tsx:40-44 | a record matches exactly when the term occurs in its lower-cased category name, its non-empty lower-cased notes or its amount text |
| TransactionsPage.SearchKeepsExactlyOccurrences | pages/Transactions.tsx:38-44 | a listed record is kept by a non-empty search exactly when the lower-cased term occurs in one of those three texts |
| TransactionsPage.SearchIgnoresTermCase | pages/Transactions.tsx:39 | searching for the lower-cased term gives the same result |
| TransactionsPage.SearchIdempotent | pages/Transactions.tsx:40-44 | searching the search result again changes nothing |
| TransactionsPage.CategoryNameOr | pages/Transactions.tsx:92-98 | the name of the first category with the selected id when that name is non-empty, else "Unknown" |
| TransactionsPage.BuildPayload | pages/Transactions.tsx:92-103 | every payload field: the parsed amount, the form's kind, category id, date and notes, the looked-up name, "USD", and the current user's id or "" |
| TransactionsPage.PayloadNamesDefault | pages/Transactions.tsx:92-98 | choosing a default category of the form's type yields a record whose name matches that default |
| TransactionsPage.PayloadPatch | pages/Transactions.tsx:106 | the payload passed to update carries no id, stamps or deleted flag |
| TransactionsPage.EditKeepsIdentity | pages/Transactions.tsx:106 | an edit keeps id, `createdAt` and the deleted flag, and takes every payload field |
| TransactionsPage.SubmitActionFor | pages/Transactions.tsx:105-109 | update with the edited record's id exactly when editing, create otherwise |
| TransactionsPage.HandleSubmit | pages/Transactions.tsx:87-119 | a create appends one record built from the payload. An update of a missing id fails with no write; otherwise the first record with the id is merged. Token, user and categories are untouched |
| TransactionsPage.OptimisticDelete | pages/Transactions.tsx:129-130 | removes exactly the entries with that id and keeps every other entry, with its multiplicity and in order |
| TransactionsPage.OptimisticDeleteCommutesWithSearch | pages/Transactions.tsx:129-130 | removing from the searched list equals searching the list after removal, so the two lists stay in step |
| TransactionsPage.OptimisticDeleteMatchesReload | pages/Transactions.tsx:127-130 | with distinct ids the optimistic list has the same records as a reload after the soft delete |
| TransactionsPage.FilteredCategories | pages/Transactions.tsx:141 | exactly the categories of the form's type, each as often as in the list and in order |
| TransactionsPage.FilteredDefaults | pages/Transactions.tsx:141 | over the defaults the options are the five income or the eight expense categories |
| Server.BearerToken | server/index.ts:25 | a token, when there is one, is non-empty and has no space |
| Server.BearerTokenOfHeader | server/index.ts:25 | `<scheme> <token>` yields the token |
| Server.BearerTokenNeedsSpace | server/index.ts:25-26 | a header without a space carries no token |
| Server.Authenticate | server/index.ts:23-33 | no token gives 401 and a failed verify gives 403. Otherwise the request is accepted with the verified claims |
| Server.FindUserByEmail | server/index.ts:48 | computes `users.find` by email as an instance of `Base.FindFirst`, whose contract gives none exactly when no user has the email, otherwise the first that has it |
| Server.FirstOwned | server/index.ts:68 | -1 exactly when no record has both the id and the caller as owner, otherwise the first such index |
| Server.Visible | server/index.ts:57 | computes the GET condition `t.userId === uid && !t.deleted`. `ListFor`, `OwnedDeleted` and `CreatedIsListed` state what it keeps |
| Server.OwnedDeleted | server/index.ts:68-69 | only the first matching record of the caller changes, gaining `deleted: true` and leaving the listing. Records of other users and all other records are unchanged |
| Server.OwnedDeletedIdempotent | server/index.ts:68-69 | deleting twice is deleting once |
| Server.NewRecord | server/index.ts:62 | the body's fields with `id`, `userId` and `createdAt` written over them |
| Server.CreatedIsListed | server/index.ts:57-63 | a posted record is listed to its creator exactly when the body did not carry a truthy `deleted` |
| Server.Backend.constructor | server/index.ts:18-19 | both arrays start empty |
| Server.Backend.Signup | server/index.ts:37-44 | appends a user with a fresh id, the email, the hashed password and the name, with no duplicate check. The reply is the signed token and the user without the hash |
| Server.Backend.Login | server/index.ts:46-54 | invalid credentials exactly when no user has the email or the first such user fails the password check. Otherwise the signed token and that user without the hash |
| Server.Backend.ListFor | server/index.ts:57 | exactly the caller's records whose `deleted` is not truthy, each as often as stored and in stored order |
| Server.Backend.Create | server/index.ts:61-65 | status 201. Exactly one record is appended: the body with a fresh id, the caller's id and `createdAt`. Users are untouched |
| Server.Backend.FindOwned | server/index.ts:68 | the `find` loop returns the first record with the id owned by the caller |
| Server.Backend.Delete | server/index.ts:67-71 | status 200 whether or not a record matched; the list becomes its owner-scoped soft-deleted form |
| Server.Backend.GetRoute | server/index.ts:56-59 | a rejected request gets the rejection's status and no list; an accepted one gets the caller's listing |
| Server.Backend.PostRoute | server/index.ts:61-65 | a rejected request changes nothing; an accepted one appends one record owned by the token's user |
| Server.Backend.DeleteRoute | server/index.ts:67-71 | a rejected request changes nothing; an accepted one soft-deletes in the token user's scope |
| Text.ToLower | pages/Transactions.tsx:39 | same length, character by character lower-cased, no upper-case letter left |
| Text.ToLowerIdempotent | pages/Transactions.tsx:39 | lower-casing twice is lower-casing once |
| Text.ContainsIff | pages/Transactions.tsx:41-43 | `includes` holds exactly when the text occurs at some position |
| Text.LexLessTotal | services/api.ts:79 | any two distinct dates are ordered one way or the other |
| Text.LexLessTransitive | services/api.ts:79 | the date order is transitive |
| Text.JoinSplit | server/index.ts:25 | splitting a joined list of space-free words gives the words back |
| Text.SplitJoin | server/index.ts:25 | joining the split words gives the header back |
| Calendar.MonthsBefore | pages/Reports.tsx:20 | i months back, a valid month |
| Calendar.MonthKeyInjective | pages/Reports.tsx:21 | different months have different `YYYY-MM` keys |
| Calendar.DayDate | constants.ts:39 | a `YYYY-MM-DD` date whose first seven characters are the month key |
| Calendar.DaysInMonth | pages/Reports.tsx:20 | every month has between 28 and 31 days |
| Types.TotalPermutation | pages/Dashboard.tsx:27 | a sum of amounts does not depend on order |
| Types.Total | pages/Dashboard.tsx:27 | computes the `reduce((acc, t) => acc + t.amount, 0)` sum. Its properties are in `TotalAppend`, `TotalNonnegative`, `TotalPermutation` and `TotalSplit` |
| Types.TotalSplit | pages/Dashboard.tsx:27-28 | the sums over a filter and over its complement add up to the whole |
| Types.FreshId | services/api.ts:86 | the new id is not among the existing ones |
| Types.FindCategory | pages/Transactions.tsx:92 | none exactly when no category has the id, otherwise the first that has it |
| Types.FindCategoryDistinct | pages/Transactions.tsx:92 | when the ids are pairwise distinct, looking up the id of entry k finds entry k |
| Base.FindFirst | server/index.ts:48 | `find`: none exactly when no element passes, otherwise an element that passes and comes before every other that does |

## Left out

- `delay`, `async` interleaving and `setTimeout`: each service call is one atomic step. Races between overlapping calls are not modelled.
- Local storage and JSON: entries are `Option` fields. Serialisation, and `setStored`, are not modelled.
- `crypto.randomUUID` and `uuidv4` are the fresh-id function; randomness is not modelled.
- Floating point: amounts are `real`. `parseFloat`, `toString` and `toFixed` are function parameters with no properties.
- `toLowerCase` is ASCII-only lower-casing.
- Dates are an input. `new Date()`, `Date.now()` and `toISOString` are parameters (`now`, `millis`, the current year and month). Local versus UTC time is not modelled.
- `toLocaleString` month labels are short English names; they are display only.
- Api.ApiService.CreateTransaction: uses one `now` for `createdAt` and `updatedAt`; the source makes two clock calls, which can differ.
- Api.ApiService.UpdateTransaction: a patch whose fields have the wrong types is outside the model. `Partial<Transaction>` is modelled field by field as options.
- `createTransaction` does not check `amount >= 0`. The model does not either; the non-negativity lemmas take it as a hypothesis.
- Reports.MonthlyData: requires a four-digit year and a current month at least five months after year 0 (`TrendWindowValid`), so that every key is a `YYYY-MM` string.
- Reports.MonthlyData: models the buckets as the intended six consecutive months. It does not model the `setMonth` day overflow; that overflow is modelled separately under "Findings".
- The mock transactions' dates use local-time `Date` objects printed in UTC. `DayDate` gives the intended calendar date.
- `openModal` (pages/Transactions.tsx:64-85), the `loadData` reloads, `console.error` and `alert`: these are UI state and output. `HandleSubmit`'s `saved` result stands for the try/catch.
- TransactionsPage.OptimisticDeleteMatchesReload: states equality of multisets, not of order. The reload is sorted and the prior list already was, but order is not proved here.
- Server: express routing, CORS and `app.listen` are not modelled. `jwt.sign`, `jwt.verify`, `bcrypt.hash` and `bcrypt.compare` are function parameters.
- `bcrypt.hash` is salted and so differs from call to call. The model takes it as a function of the password.
- TransactionsPage.HandleSubmit: looks the category name up in the service's current categories. The page uses its React `categories` state, loaded by `loadData` (pages/Transactions.tsx:55-56); the two agree whenever the page's last load is current.
- The server's `categories` array (server/index.ts:20) is declared but no route uses it.
- Server.Backend.Create: `createdAt` is the `now` string, not a `Date` object.
- Server: the object shared between the list and the response is not modelled; a record is a value.
- Presentation files (pages/Landing.tsx, components/Layout.tsx, components/UI.tsx, App.tsx and pages/Categories.tsx) are not part of this model. Neither are the charts or the `MonthlySummary` and `CategoryBreakdown` types, which no code computes.
- The default-category delete guard in pages/Categories.tsx:61 is UI-only, so `DeleteCategory` has no such precondition.

## Findings

| source | as written | input that shows it | evidently intended | confidence | as-written member | corrected member |
|---|---|---|---|---|---|---|
| pages/Reports.tsx:19-20 | `d.setMonth(d.getMonth() - i)` keeps today's day of the month; when the target month is shorter, the date rolls into the following month | today 31 March 2025: i = 4 and i = 3 both land in December 2024, and i = 1 and i = 0 both land in March 2025, so the chart shows four buckets and misses November 2024 and February 2025 | six distinct consecutive months ending at the current one | not executed | Reports.SetMonthOverflowDropsMonths | Reports.BucketMonthsDistinct |
