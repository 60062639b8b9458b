# Subscription dashboard model

A Dafny model of the deterministic logic of a subscription-management admin
dashboard (a React front end over a hosted database). The model covers:

- **Subscription statistics** (`fetchUserStats` in `src/pages/Index.tsx`).
  One pass over a snapshot of the `subscriptions` table. It counts trial and
  active rows and walks the months of each active row with a start date. Each
  walked month past the trial is credited a flat $5 in a map keyed by
  (year, month). It then attributes new subscribers and derives MRR, ARR,
  total revenue, the conversion and churn ratios and the sorted month series.
  `RevenueAggregation.FetchUserStats` runs these loops over a
  `map<(int, int), MonthBucket>` and an insertion-order sequence. Its contract
  ties the result to closed-form functions: `CreditCount` (rows crediting a
  month), `NewCount`, `WalkCount`, `TotalCredits` and `MrrPolicy`.
- **User management panel** (`UserManagement.tsx`). It maps a stored row to a
  displayed `User`: status precedence, plan amount and interval, and the
  name/email fallbacks with the email-derived title-cased name. It also holds
  the list operations (delete, status change, add, filter). The panel state is
  the class `UserManagement.Panel`.
- **User table** (`UserTable.tsx`): five rows per page, the page slice, clamped
  Previous/Next (the class `UserTable.Pager`) and the subscription label.
- **Add-user dialog** (`AddUserModal.tsx`): the submit checks, including the
  email regular expression as a hand-written validator proved equal to the
  pattern, the user handed on, and the form reset (the class `AddUserModal.Form`).
- **Data helpers** (`src/lib/data.ts`): `getUpcomingTrialEnds`,
  `getUserStatusColor`, `createUser`, the mock `USERS` and the counts of
  `REVENUE_METRICS`.
- **Upcoming trial expirations card** (`UpcomingTrialEnds.tsx`): the window
  query, the row transform, the ceiling day count, the badge colour and the
  unit word.

Conventions:

- The clock (`new Date()`, `Date.now()`) is an explicit parameter (`today` or
  `now`).
- A stored date is a calendar `Calendar.Timestamp` (year, month, day,
  milliseconds of the day), read in UTC. `Calendar.EpochMillis` is `getTime()`
  for a browser whose time zone is UTC, and `Calendar.ChronologicalOrder`
  proves that the field-wise order is the order of `EpochMillis`.
- Dates held by a `User` are epoch milliseconds.
- Nullable columns are `Option`. A nullable string column that is only ever
  tested for truthiness (`stripe_customer_id`, `user_id`) is a `string`, with
  the empty string standing for both `null` and `""`. Both are falsy in
  JavaScript.
- Ratios are Dafny `real`s, not IEEE doubles.
- `setMonth(getMonth() + 1)` is modelled only for start days up to 28, where
  JavaScript's calendar overflow cannot occur.

Where the code does something one might not expect, the model follows the code:

- Only rows stored as `'active'` (and not in trial) have their months walked
  (`src/pages/Index.tsx:68`). A canceled row with an end date therefore adds
  no revenue. It also adds no churned subscriber: the churn increment sits
  inside the `'active'` branch and is unreachable
  (`src/pages/Index.tsx:120`). Such a row only counts toward the churn ratio.
- `newSubscribers` is bumped only when the start month's bucket already exists
  after the row's own walk (`src/pages/Index.tsx:114`). A start month covered
  by the trial is not credited by that row, so its new subscriber is counted
  only if an earlier row of the snapshot has already credited that month;
  otherwise it is counted nowhere. One might expect a zero-revenue bucket with
  one new subscriber; the code creates none. The count therefore depends on
  the order of the rows (`RevenueAggregation.ScenarioEarlierRowCreditsStartMonth`).
- A user added through the panel gets the auth user's id, read back from the
  inserted row (`src/components/UserManagement.tsx:243-252`), while a loaded
  user's id is its subscription row id (`src/components/UserManagement.tsx:101`).
  Deleting or changing such a user before the next load passes
  `parseInt` of that id to the database.
- The trial check compares whole dates, not months (`src/pages/Index.tsx:91`),
  and the walk condition compares the day of the month too
  (`src/pages/Index.tsx:81`).

## Model

| member | source | states |
|---|---|---|
| `RevenueAggregation.FetchUserStats` | src/pages/Index.tsx:52-184 | active and trial counts equal the closed-form counts; MRR follows the December / current month / $5 × active policy; ARR = 12 × MRR; total revenue = $5 × credited (row, visited month) pairs = sum of the series; ratios are active/rows and ended/rows (0 for no rows); every bucket holds $5 × the rows crediting its month (positive), its new subscribers and 0 churn; the series holds exactly the credited months, strictly ascending by (year, month) |
| `RevenueAggregation.ProcessRows` | src/pages/Index.tsx:62-129 | after the `forEach`, the counters are the trial and active counts of all rows, the map agrees with every row processed, and the revenue in the map is $5 × all credited pairs |
| `RevenueAggregation.ProcessRow` | src/pages/Index.tsx:62-128 | one row bumps at most one counter (trial first, else active), and extends the map's agreement by exactly this row |
| `RevenueAggregation.WalkMonths` | src/pages/Index.tsx:72-110 | the month walk creates or updates exactly the buckets of the months this row credits, adding $5 each, and the map's revenue grows by $5 × the dates visited past the trial |
| `RevenueAggregation.CreditRow` | src/pages/Index.tsx:72-127 | for an active row with a start date, the month walk, the start-month new subscriber and the churn update extend the map's agreement by this row, and the total revenue grows by $5 per credited month |
| `RevenueAggregation.CurrentMrr` | src/pages/Index.tsx:141-149 | the MRR read from the map equals the closed-form policy on the rows: December of this year if credited, else this month if credited, else $5 × active count |
| `RevenueAggregation.SumBuckets` | src/pages/Index.tsx:152-155 | the `forEach` sum over the map equals the sum of the revenues of all buckets in insertion order |
| `RevenueAggregation.ChurnUpdate` | src/pages/Index.tsx:119-126 | the end month's bucket gains a churned subscriber only for a row with an end date whose status is not `'active'`; on the only path that reaches it (status `'active'`) the map is unchanged |
| `RevenueAggregation.Ratio` | src/pages/Index.tsx:162-168 | `total > 0 ? part / total : 0` lies in [0, 1], is 0 for no rows, and otherwise times the total gives the part |
| `RevenueAggregation.ActivePlusTrialAtMostRows` | src/pages/Index.tsx:62-69 | each row counts as trial or active at most once, so active + trial ≤ number of rows |
| `RevenueAggregation.RatesInUnitInterval` | src/pages/Index.tsx:162-168 | conversion and churn ratios are in [0, 1] and both 0 for an empty snapshot |
| `RevenueAggregation.NotWalkedAddsNothing` | src/pages/Index.tsx:64-72 | a row in trial, not `'active'`, or without a start date changes no bucket, no credit count and not the total |
| `RevenueAggregation.CreditsIffVisitedPastTrial` | src/pages/Index.tsx:78-109 | the month of the j-th visited date (start + j months) is credited iff that date is on or before the window end (end date, else today) and the row has no trial end or the date is strictly after it |
| `RevenueAggregation.CreditedMonthIsVisited` | src/pages/Index.tsx:78-109 | every credited month is the month of some visited date start + j months, j ≥ 0 |
| `RevenueAggregation.WalkCountAtMostMonths` | src/pages/Index.tsx:80-110 | the walk credits at most one date per month of the window |
| `RevenueAggregation.NewCountAtMostStarts` | src/pages/Index.tsx:113-117 | a month's new subscribers are at most the walked rows that started in it: each row adds at most one, only to its start month |
| `RevenueAggregation.NewCountOnlyStartMonth` | src/pages/Index.tsx:113-117 | a row that did not start in month k leaves month k's new-subscriber count unchanged |
| `RevenueAggregation.NewNeedsCredit` | src/pages/Index.tsx:113-117 | a month has new subscribers only if it has been credited, so the bump never creates a bucket |
| `RevenueAggregation.CreditedMonthValid` | src/pages/Index.tsx:82 | every credited key has a month between 1 and 12 |
| `RevenueAggregation.TotalOfPermutation` | src/pages/Index.tsx:181-184 | reordering the buckets (the sort) keeps the sum of their revenues |
| `RevenueAggregation.ScenarioPlainActive` | src/pages/Index.tsx:62-117 | an active row from 1 January with no end and no trial, on 15 March: January, February and March hold $5 each, January one new subscriber; 1 active, 0 trial |
| `RevenueAggregation.ScenarioTrialCoversStartMonth` | src/pages/Index.tsx:86-117 | the same row with a trial ending 20 January: January is not credited and gets no new subscriber; February and March are credited |
| `RevenueAggregation.ScenarioEarlierRowCreditsStartMonth` | src/pages/Index.tsx:113-117 | a plain row and a row whose trial covers the shared start month: January gets two new subscribers when the plain row comes first, one in the other order |
| `RevenueAggregation.ScenarioCanceled` | src/pages/Index.tsx:68-72 | a canceled row with an end date credits no month and is not active, and makes the churn ratio 1 |
| `Calendar.NextMonth` | src/pages/Index.tsx:109 | moving one month on advances the month index by exactly one and keeps day and time; a valid date with day ≤ 28 stays valid |
| `Calendar.ChronologicalOrder` | src/pages/Index.tsx:64 | the field-wise order on dates is the order of their epoch milliseconds, and equal dates have equal milliseconds |
| `Sorting.SortBy` | src/pages/Index.tsx:181-184 | the result is ordered by the key and is a permutation of the input |
| `Sorting.PermutationKeepsDistinct` | src/pages/Index.tsx:181-184 | a permutation of a list without repeats has no repeats |
| `UserManagement.UiStatus` | src/components/UserManagement.tsx:51-61 | the status shown for a row; its four exclusive cases are stated by `UiStatusCases` |
| `UserManagement.UiStatusCases` | src/components/UserManagement.tsx:51-61 | status precedence: `'inactive'` → expired; else a future end date → trial; else `'canceled'` → cancelled; else active (four exclusive iff cases) |
| `UserManagement.PlanAmount` | src/components/UserManagement.tsx:93-98 | 5 iff the type contains "Monthly", 50 iff it does not but contains "Yearly", else 0 |
| `UserManagement.PlanInterval` | src/components/UserManagement.tsx:109-111 | monthly iff the type contains "Monthly", otherwise yearly, also for a missing type |
| `UserManagement.AmountMatchesInterval` | src/components/UserManagement.tsx:93-111 | amount 5 goes with the monthly interval and only with it; amount 50 goes with yearly |
| `UserManagement.TitleCaseByPosition` | src/components/UserManagement.tsx:80-86 | splitting on spaces, capitalising each word and joining keeps the length, keeps the spaces, upper-cases each word's first character and lower-cases the rest |
| `UserManagement.NameFromEmailShape` | src/components/UserManagement.tsx:75-87 | the email-derived name is as long as the local part, has a space exactly where the local part has a character outside `[a-zA-Z0-9]`, holds only ASCII letters, digits and spaces, and is title-cased by word |
| `UserManagement.LocalPart` | src/components/UserManagement.tsx:78 | `split("@")[0]` is the prefix before the first `@` and holds no `@` |
| `UserManagement.NameFromEmail` | src/components/UserManagement.tsx:77-86 | the name derived from an email; its shape is stated by `NameFromEmailShape` |
| `UserManagement.NameAndEmail` | src/components/UserManagement.tsx:63-91 | name and email of a row; the fallback chain is stated by `ProfileFallbacks` and `NoProfileEmailHasAt`, the empty name by `NameEmptyIff` |
| `UserManagement.ProfileFallbacks` | src/components/UserManagement.tsx:68-70 | with a profile, a non-empty display name and email are used; a missing or empty one falls back to "Unknown User" or "unknown@example.com" |
| `UserManagement.NameEmptyIff` | src/components/UserManagement.tsx:65-91 | the name is empty only without a profile, with the "User <id>" fallback, and a user id that starts with `@` |
| `UserManagement.NoProfileEmailHasAt` | src/components/UserManagement.tsx:72-90 | without a profile the email is the user id if it contains `@`, else `user-<id>@example.com`, so it always contains `@`; the name is a non-placeholder customer id, else the placeholder `User <id>`, replaced by the email-derived name when the user id contains `@` |
| `UserManagement.ProfilesById` | src/components/UserManagement.tsx:45-48 | the profile map holds exactly the ids of the profile rows |
| `UserManagement.ProfilesByIdLastWins` | src/components/UserManagement.tsx:45-48 | for a repeated id the map holds the profile of its last row |
| `UserManagement.RowToUser` | src/components/UserManagement.tsx:50-117 | the user made of one row; stated by `RowToUserFacts`, `NameAndEmail`'s lemmas and `UiStatusCases` |
| `UserManagement.RowToUserFacts` | src/components/UserManagement.tsx:100-116 | a user shown as trial has a trial end after now; the trial end is set iff the row has an end date; every user has an interval; the id renders the row id; with no end date last active = created |
| `UserManagement.UsersFromRows` | src/components/UserManagement.tsx:50-117 | one user per row, in order, each the row's transform |
| `UserManagement.UsersFromRowsDistinctIds` | src/components/UserManagement.tsx:101 | rows with distinct ids give users with distinct ids |
| `UserManagement.DeleteById` | src/components/UserManagement.tsx:141 | the local delete; stated by `DeleteByIdSpec` and `DeleteKeepsOrder` |
| `UserManagement.DeleteByIdSpec` | src/components/UserManagement.tsx:141 | delete keeps exactly the users whose id differs, and changes nothing when no user has that id |
| `UserManagement.DeleteKeepsOrder` | src/components/UserManagement.tsx:141 | delete distributes over concatenation, so the kept users stay in order |
| `UserManagement.StatusUpdateFor` | src/components/UserManagement.tsx:150-168 | writes `'inactive'` for expired/cancelled, `'active'` otherwise; start and end dates are sent iff the new status is trial, fourteen days apart |
| `UserManagement.StoredStatusReadsBack` | src/components/UserManagement.tsx:150-153 | a written status reads back as expired for expired/cancelled, and as trial (future end date) or active for active/trial |
| `UserManagement.WithStatus` | src/components/UserManagement.tsx:183-192 | the change applied to one user; stated through `ChangeStatus` |
| `UserManagement.ChangeStatus` | src/components/UserManagement.tsx:181-194 | only the users with that id change; they get the new status, and their trial end changes (to now + 14 days) only when the new status is trial; every other field is kept |
| `UserManagement.ChangeStatusIdempotent` | src/components/UserManagement.tsx:181-194 | applying the same status change twice equals applying it once |
| `UserManagement.ChangedUsersFilterIn` | src/components/UserManagement.tsx:181-194 | after a change every user with that id appears under the new status filter |
| `UserManagement.StatusToInsert` | src/components/UserManagement.tsx:224-229 | the status string inserted for a new user; stated by `InsertFor` |
| `UserManagement.PlanTypeFor` | src/components/UserManagement.tsx:232-237 | the plan type inserted for an interval; stated by `InsertFor` and `PlanTypeReadsBack` |
| `UserManagement.PlanTypeReadsBack` | src/components/UserManagement.tsx:232-237 | "Monthly Plan" and "Yearly Plan" read back as their interval with amounts 5 and 50; "Free Plan" reads back as yearly with amount 0 |
| `UserManagement.InsertFor` | src/components/UserManagement.tsx:221-238 | the inserted row has no customer id and the new auth user's id; status "active" for active, "canceled" for cancelled, "inactive" for trial and expired; a start date iff the user is in trial, and then it is now; the user's trial end as end date; plan type "Monthly Plan", "Yearly Plan" or "Free Plan" by interval |
| `UserManagement.InsertedStatusReadsBack` | src/components/UserManagement.tsx:224-229 | a row holding the inserted status reads back as active (or trial while its end date is ahead) for an active user, as cancelled (likewise) for a cancelled one, and as expired for trial and expired users |
| `UserManagement.AddUser` | src/components/UserManagement.tsx:250-255 | the list grows by one user at the end, with the returned id and the form's fields, the others unchanged |
| `UserManagement.FilterUsers` | src/components/UserManagement.tsx:265-268 | `filteredUsers`; stated by `FilterUsersSpec` and `FilterUsersKeepsOrder` |
| `UserManagement.FilterUsersSpec` | src/components/UserManagement.tsx:265-268 | "all" returns the list unchanged; a status returns exactly the users with that status, as many as there are |
| `UserManagement.FilterUsersKeepsOrder` | src/components/UserManagement.tsx:265-268 | filtering distributes over concatenation, so order is preserved |
| `UserManagement.Panel.constructor` | src/components/UserManagement.tsx:11-15 | the panel starts with no users and the "all" filter |
| `UserManagement.Panel.Visible` | src/components/UserManagement.tsx:265-268 | the list the table receives; stated by `Panel.SetFilter` |
| `UserManagement.Panel.Load` | src/components/UserManagement.tsx:45-119 | a successful load replaces the users with the transformed rows (a row without a user id finds no profile, as only truthy ids are fetched); a failed one keeps them |
| `UserManagement.Panel.Delete` | src/components/UserManagement.tsx:128-147 | a successful delete removes the users with that id; a failed one changes nothing |
| `UserManagement.Panel.SetStatus` | src/components/UserManagement.tsx:149-201 | sends the status update and, on success, applies the local status change |
| `UserManagement.Panel.Add` | src/components/UserManagement.tsx:203-263 | inserts nothing and changes nothing when creating the auth user fails or returns no id; otherwise returns the insert record, and when the insert succeeds appends the user with the auth user's id, which the insert reads back |
| `UserManagement.Panel.SetFilter` | src/components/UserManagement.tsx:265-268 | picking a filter changes only the filter; afterwards the visible list is every user for "all", and for a status exactly as many users as have it, all with that status |
| `UserTable.TotalPages` | src/components/UserTable.tsx:41 | `ceil(n / 5)`: 0 iff there are no users, otherwise the least page count holding n rows |
| `UserTable.PageRows` | src/components/UserTable.tsx:43-46 | the rows of one page; stated by `PageRowsSpec`, `PageNonEmptyIff` and `PagesCoverUsers` |
| `UserTable.PageRowsSpec` | src/components/UserTable.tsx:43-46 | page p shows `users[(p-1)*5 .. p*5)` clipped to the list, at most five rows, and none past the end |
| `UserTable.PageNonEmptyIff` | src/components/UserTable.tsx:41-46 | a page has rows iff its number is at most the page count |
| `UserTable.FirstPagesPrefix` | src/components/UserTable.tsx:43-46 | pages 1..k together are the first 5k users |
| `UserTable.PagesCoverUsers` | src/components/UserTable.tsx:41-46 | concatenating pages 1..totalPages reproduces the user list exactly |
| `UserTable.PreviousPage` | src/components/UserTable.tsx:148 | Previous goes back one page from any page after the first and stays on page 1 from page 1 (or below) |
| `UserTable.NextPage` | src/components/UserTable.tsx:159 | Next goes forward one page from any page before the last and stays on the last page from the last page (or beyond) |
| `UserTable.NextThenPrevious` | src/components/UserTable.tsx:148-159 | Next then Previous returns to a page that was not the last |
| `UserTable.Pager.constructor` | src/components/UserTable.tsx:38-47 | the table starts on page 1 showing its slice |
| `UserTable.Pager.SetUsers` | src/components/UserTable.tsx:43-47 | new users are re-sliced at the current page |
| `UserTable.Pager.Previous` | src/components/UserTable.tsx:148 | the page becomes the clamped previous page and the visible rows its slice |
| `UserTable.Pager.Next` | src/components/UserTable.tsx:159 | the page becomes the clamped next page, within 1..totalPages, and the visible rows its slice |
| `UserTable.SubscriptionLabel` | src/components/UserTable.tsx:59-64 | the subscription column; stated by `SubscriptionLabelReadsBack` |
| `UserTable.SubscriptionLabelReadsBack` | src/components/UserTable.tsx:59-64 | "No subscription" iff no interval or amount ≤ 0; otherwise "$" + the amount's digits + "/mo" for monthly or "/yr" for yearly, from which amount and interval read back |
| `AddUserModal.ValidEmail` | src/components/AddUserModal.tsx:46-47 | the email check; stated by `ValidEmailIffPattern` |
| `AddUserModal.ValidEmailIffPattern` | src/components/AddUserModal.tsx:46-47 | the hand-written check accepts exactly the strings `^[^\s@]+@[^\s@]+\.[^\s@]+$` matches |
| `AddUserModal.SubmitResult` | src/components/AddUserModal.tsx:37-63 | missing fields iff name or email is empty; invalid email iff both are filled but the email does not match; otherwise the user carries the given name, email and status |
| `AddUserModal.SubmittedUserFacts` | src/components/AddUserModal.tsx:52-63 | the trial end is set iff the status is trial, fourteen days after now; amount and interval are kept only for active, else 0 and none; created and last active are now |
| `AddUserModal.Form.constructor` | src/components/AddUserModal.tsx:31-35 | the form opens blank: empty name and email, status trial, amount 0, no interval |
| `AddUserModal.Form.Reset` | src/components/AddUserModal.tsx:70-76 | reset leaves the form blank |
| `AddUserModal.Form.Submit` | src/components/AddUserModal.tsx:37-68 | returns the submit outcome of the current fields; an accepted submit hands on the user once and blanks the form; a rejected one changes nothing |
| `TrialExpirations.DaysRemaining` | src/components/UpcomingTrialEnds.tsx:81-87 | no date gives 0; otherwise the smallest d with time left ≤ d days, i.e. the ceiling of the days left |
| `TrialExpirations.DaysRemainingBounds` | src/components/UpcomingTrialEnds.tsx:84-86 | any time left in (0, 1 day] gives 1; none left gives ≤ 0; some left gives ≥ 1 |
| `TrialExpirations.DaysMonotone` | src/components/UpcomingTrialEnds.tsx:84-86 | a later end never has fewer days left; an end at now gives 0 and at now + 14 days gives 14 |
| `TrialExpirations.Badge` | src/components/UpcomingTrialEnds.tsx:116-123 | the badge colour of a day count; stated by `BadgeByTimeLeft` |
| `TrialExpirations.BadgeByTimeLeft` | src/components/UpcomingTrialEnds.tsx:116-123 | red iff at most 3 days are left, amber iff more than 3 and at most 7, green beyond 7 |
| `TrialExpirations.UnitWord` | src/components/UpcomingTrialEnds.tsx:140 | "day" or "days"; stated by `SingularIffLastDay` |
| `TrialExpirations.SingularIffLastDay` | src/components/UpcomingTrialEnds.tsx:140 | the unit word is "day" iff the count is 1, i.e. iff the time left is in (0, 1 day] |
| `TrialExpirations.TrialRowToUser` | src/components/UpcomingTrialEnds.tsx:58-70 | the user made of one row; stated by `TrialRowToUserFacts` |
| `TrialExpirations.TrialRowToUserFacts` | src/components/UpcomingTrialEnds.tsx:58-70 | every row becomes a trial user with amount 0 and no interval; name is the customer id, else "Unknown"; email the user id, else "unknown@example.com"; the id renders the row id; the trial end is the row's end date when it has one; created and last active are both the creation date |
| `TrialExpirations.TrialUsers` | src/components/UpcomingTrialEnds.tsx:39-70 | the card's users; stated by `TrialUsersDaysLeft` |
| `TrialExpirations.TrialUsersDaysLeft` | src/components/UpcomingTrialEnds.tsx:39-70 | every user on the card has 0 to 14 days left, and the list runs from fewest days to most |
| `MockData.UpcomingTrialEnds` | src/lib/data.ts:200-211 | `getUpcomingTrialEnds`; stated by the four `Upcoming...` lemmas |
| `MockData.UpcomingIsPermutation` | src/lib/data.ts:204-210 | the result is a permutation of the filtered users |
| `MockData.UpcomingOnlyEndingTrials` | src/lib/data.ts:200-207 | every user returned is a trial user of the list with a trial end at or before now + days |
| `MockData.UpcomingAllEndingTrials` | src/lib/data.ts:200-207 | every trial user of the list with a trial end at or before now + days is returned |
| `MockData.UpcomingOrderedByTrialEnd` | src/lib/data.ts:208-210 | the result is sorted ascending by trial end |
| `MockData.DefaultCutoffIsCardWindow` | src/lib/data.ts:200-207 | with the default argument of 14 days, every user returned is a trial user whose trial ends within the trial card's fourteen-day window |
| `MockData.StatusColor` | src/lib/data.ts:243-256 | `getUserStatusColor`; stated by `StatusColorsDistinct` |
| `MockData.StatusColorsDistinct` | src/lib/data.ts:243-256 | the four statuses get four distinct class strings, any other string gets gray, and gray is none of the four |
| `MockData.CreateUser` | src/lib/data.ts:259-264 | the new user has the given id and every input field unchanged |
| `MockData.MockUsers` | src/lib/data.ts:18-151 | the twelve mock users; their statuses are stated by `MockStatusesOf`, their counts by `MockMetricsCounts` |
| `MockData.MockMetricsCounts` | src/lib/data.ts:189-197 | the mock metrics count 5 active and 4 trial users, the numbers of `USERS` with those statuses |
| `MockData.MockStatusesOf` | src/lib/data.ts:18-151 | the statuses of the mock users, in order, are active, trial, active, trial, expired, active, cancelled, active, trial, active, trial, expired |
| `MockData.MockStatusCounts` | src/lib/data.ts:193-194 | the statuses of `USERS`, in order, hold `'active'` five times and `'trial'` four times |
| `Records.CountIsMultiplicity` | src/lib/data.ts:193-194 | counting the users with a status, as the `filter(...).length` does, gives the multiplicity of that status among the users' statuses |
| `Records.CountWithStatus` | src/lib/data.ts:193-194 | the count is at most the list length, and equals it iff every user has the status |
| `Common.Contains` | src/components/UserManagement.tsx:94 | `includes` holds iff some position starts a copy of the needle |
| `Common.JoinSplit` | src/components/UserManagement.tsx:80-86 | joining the pieces of a split on the same separator gives the string back |
| `Common.FilterAppend` | src/components/UserManagement.tsx:141 | `filter` distributes over concatenation |

## Left out

- All database reads, inserts, updates and deletes, the admin call that creates
  an auth user, and the login/session flow: network I/O. Each state-changing
  panel operation takes whether each of its calls succeeded.
- The hand-off of the month series through browser storage, toasts and console
  logging.
- `Calendar.ChronologicalOrder` and `Calendar.EpochMillis`: every date is read
  in UTC, with no zone offset and no daylight saving. The source takes month
  keys from `getFullYear()`/`getMonth()` in the browser's local zone (`src/pages/Index.tsx:82`, `src/pages/Index.tsx:113`),
  so in another zone a row can fall into a different month (a start at
  2024-03-01T02:00Z is February in UTC−5), and during a repeated
  daylight-saving hour the field order and the `getTime()` order differ.
- Rendering: stat cards, the revenue and active-user charts, and all JSX.
  The trial badge's class strings are represented by the colour
  `BadgeColor` (red, amber, green).
- `formatCurrency`, `formatPercentage`, `formatDate`, the locale month names of
  each bucket (`month`, `formattedMonth`): locale library calls.
- `DAILY_ACTIVE_USERS` (sine-based float noise) and the random id of
  `createUser`, which is a parameter instead.
- JavaScript `Date` overflow: `setMonth` past a short month is not modelled;
  `FetchUserStats` requires start days up to 28. `setDate(+14)` is taken as
  exactly 14 × 86 400 000 ms (no daylight-saving shift).
- `UserTable.SubscriptionLabelReadsBack`: subscription amounts are whole numbers
  (`int` in `User` and `NewUser`). The add dialog stores
  `Number(e.target.value)`, which may be fractional (9.99), and the table
  would print the decimals. Only whole amounts are modelled.
- `RevenueAggregation.FetchUserStats`: ratios are exact `real`s, not IEEE
  doubles.
- `TrialExpirations.TrialUsersDaysLeft`: the date-range filter and ordering are
  done by the database query; the model states them as a filter and a sort.
- `MockData.UpcomingIsPermutation`: `getUpcomingTrialEnds` is modelled over any
  user list; the source applies it to `USERS` only.
- The array sort is modelled as a stable insertion sort; only its promise
  (ordered by key, a permutation) is relied on.
- Whitespace in the email pattern is JavaScript's `\s` set; other Unicode
  details of regular expressions are not modelled.
- `UserManagement.NameFromEmailShape`: strings are sequences of code points.
  JavaScript strings are UTF-16, and `replace(/[^a-zA-Z0-9]/g, " ")` without
  the `u` flag turns a character outside the Basic Multilingual Plane (two
  code units) into two spaces, so the derived name is then longer than the
  model's local part.
