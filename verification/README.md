# femfinhub in Dafny

This project models the logic of the femfinhub single-page application, a
personal-finance app for women entrepreneurs. Almost all of the app is
presentation. The model covers the parts that are plain sequential logic:

- The **expense ledger** (`Ledger`, `ExpenseOrder`):
  - the sort-toggle rule;
  - a stable single-key sort with an ascending or descending comparator;
  - the combined search-and-category filter with its `"all"` sentinel;
  - the running total;
  - adding an expense.
- The **session store** (`Session`): the signed-in user, the loading flag and
  the one storage slot. Covers the start-up load, sign-in with the demo
  credentials, sign-up and sign-out.
- **Route resolution** (`Routing`): the route table, with its public, guarded
  and catch-all routes, and the protected-route guard. Together they resolve
  a path under a session to a spinner, a redirect to `/login`, or a page.
- The **chatbot** (`Chat`):
  - the send guard;
  - the first-match-wins keyword table that picks one of five canned replies;
  - the conversation as a state machine whose timer firings are explicit
    events.
- The **settings** forms (`Settings`):
  - the name and password length rules;
  - the two cross-field password refinements;
  - the theme enum;
  - the notification defaults;
  - the submit handlers.
- The **emergency-fund planner** (`Emergency`): progress rounded half up and
  capped at 100, months to go as a ceiling division, months covered as a floor
  division, and the three input handlers.
- The **help page's FAQ search** (`Help`) and the **dashboard helpers**
  (`Dashboard`): greeting by hour, display name, the merge of the two chart
  series, and the incoming-transaction test.

Shared vocabulary:

- `Seqs`: order-preserving filter, sums, reversal, subsequences.
- `Text`: ASCII case mapping, `includes`, `trim`, lexicographic string order.
- `Sorting`: a generic stable sort proved to permute, order and keep ties in
  input order.

Modelling choices:

- Expense amounts are integer cents. The emergency fund's amounts are whole
  dollars, as the page's inputs hold them.
- Dates are timestamps in milliseconds since 1970-01-01 UTC, which is what a
  `Date` compares by. A date-only string such as '2023-08-01' is UTC midnight,
  day 19570, so the sample rows are `19570 * DAY_MS` and so on; a new
  expense's date is the current moment, time of day included.
- Strings are sequences of characters.
- Comparing strings with `<` is modelled as lexicographic order (`Text.LexLess`).
- Operations return their navigation and notices as values.
- Effects the model cannot see are parameters:
  - the id `Date.now()` would give;
  - the current time;
  - the hour;
  - whether writing storage succeeds.

Two behaviours are easy to miss:

- **Failed sign-in.** A failed sign-in leaves the state untouched, so a user
  who was already signed in stays signed in (`Session.SignInOutcomes`).
- **Settings security form.** The schema rejects the empty strings the form
  starts with, so the untouched form cannot be submitted
  (`Settings.SubmitSecurity`; see Findings).

## Model

| member | source | states |
|---|---|---|
| Ledger.NextSort | src/pages/Expenses.tsx:143-149 | the new sort is on the clicked key, and it is descending exactly when that key was already sorted ascending; any other click sorts ascending |
| Ledger.SortToggleAlternates | src/pages/Expenses.tsx:143-149 | clicking the same key twice returns to ascending, so repeated clicks alternate the direction |
| ExpenseOrder.CompareLaws | src/pages/Expenses.tsx:154-162 | the comparator is antisymmetric, returns 0 exactly for rows with equal key values, and descending is ascending with the arguments swapped |
| ExpenseOrder.CompareTransitive | src/pages/Expenses.tsx:154-162 | the comparator's "not after" relation is transitive for every key, numeric or string |
| ExpenseOrder.ComparatorConsistent | src/pages/Expenses.tsx:154-162 | the comparator handed to the sort is a consistent total preorder whose ties are exactly the rows with equal key values |
| ExpenseOrder.FieldOf | src/pages/Expenses.tsx:47-54 | date and amount compare as numbers; id, category, description and payment method compare as strings |
| ExpenseOrder.SortRows | src/pages/Expenses.tsx:152-164 | the sorted rows are a permutation of the input, ordered by the comparator, with rows of equal key in their input order |
| ExpenseOrder.DescendingReversesAscending | src/pages/Expenses.tsx:154-161 | when no two rows share the key value, the descending order is exactly the ascending order reversed |
| Sorting.StableSort | src/pages/Expenses.tsx:154 | sorting a copy yields a permutation of the rows |
| Sorting.SortIsSorted | src/pages/Expenses.tsx:154-162 | for any consistent comparator the sort's output is ordered |
| Sorting.SortIsStable | src/pages/Expenses.tsx:154-162 | for any consistent comparator, each class of tied elements appears in the output in its input order |
| Sorting.SortedUnique | src/pages/Expenses.tsx:154-162 | two ordered permutations of the same rows without ties are equal, so the sort's result is determined |
| Ledger.SortedExpenses | src/pages/Expenses.tsx:151-165 | with no sort the derived list is the expense list itself; with one it is a sorted, stable permutation; the expense list is never changed |
| Ledger.FilteredExpenses | src/pages/Expenses.tsx:167-172 | the visible rows are an in-order selection of the sorted rows: exactly those whose lower-cased description or category contains the lower-cased term and whose category is selected or the selection is "all", each kept as many times as it occurs among the sorted rows |
| Ledger.UnfilteredShowsAll | src/pages/Expenses.tsx:125-172 | an empty term with category "all" shows every sorted row |
| Ledger.TotalOverVisibleRows | src/pages/Expenses.tsx:174 | the total is the sum of amounts over exactly the rows passing the filter, does not depend on the sort, and is 0 when nothing is visible |
| Ledger.ReduceTotal | src/pages/Expenses.tsx:174 | the left-to-right reduction computes the sum of the amounts |
| Ledger.SampleTotal | src/pages/Expenses.tsx:56-97 | the five sample expenses total 172124 cents |
| Ledger.SampleSum | src/pages/Expenses.tsx:56-97 | the sample amounts sum to 172124 cents |
| Ledger.SampleMarketingTotal | src/pages/Expenses.tsx:56-97 | filtering the sample to Marketing totals 20000 cents |
| Ledger.AddExpense | src/pages/Expenses.tsx:176-190 | the new row goes in front of the unchanged old rows and is exactly the form's date, category, description, amount and payment method with the given id; the form resets and the dialog closes; search, category and sort are untouched |
| Ledger.AddAllKeepsIdsUnique | src/pages/Expenses.tsx:176-181 | adding rows with fresh, distinct ids grows the list by their number and keeps all ids distinct |
| Text.Contains | src/pages/Expenses.tsx:168-169 | `includes` holds exactly when the needle occurs at some index of the haystack |
| Text.LexLessIff | src/pages/Expenses.tsx:155-158 | string `<` holds exactly for a proper prefix or at the first differing character |
| Text.LexTransitive | src/pages/Expenses.tsx:155-158 | string `<` is transitive |
| Text.LexTotal | src/pages/Expenses.tsx:155-158 | any two strings are equal or ordered one way |
| Session.CheckAuth | src/hooks/use-auth.tsx:31-41 | the start-up check adopts the stored user when the slot holds one, keeps the current user otherwise, and stops loading |
| Session.LoadAdoptsStoredUser | src/hooks/use-auth.tsx:26-41 | the provider starts loading; after the check the user is exactly what was stored, memory and storage agree, and the phase is authenticated exactly when something was stored |
| Session.Begin | src/hooks/use-auth.tsx:45 | entering sign-in or sign-up sets loading and changes nothing else |
| Session.SignIn | src/hooks/use-auth.tsx:43-84 | loading always ends; the user becomes the demo account only for the demo pair with working storage and is otherwise unchanged; it navigates exactly on success |
| Session.SignInOutcomes | src/hooks/use-auth.tsx:53-74 | the demo pair signs in, stores the demo account and goes to /dashboard; any other pair leaves user and storage as they were, shows a destructive notice and does not navigate |
| Session.SignUp | src/hooks/use-auth.tsx:86-116 | with working storage any name and e-mail become the signed-in and stored account with id "1" and it navigates to /dashboard; loading always ends |
| Session.SignOut | src/hooks/use-auth.tsx:118-126 | storage and user are cleared and it navigates to "/", whatever the prior state |
| Session.ApplyKeepsInvariant | src/hooks/use-auth.tsx:43-131 | every completed operation leaves memory and storage equal and the phase definite; only sign-out leaves the authenticated phase, and it always does |
| Session.RunKeepsInvariant | src/hooks/use-auth.tsx:26-131 | after start-up, any sequence of operations keeps memory and storage equal and never leaves loading set |
| Session.RunFrom | src/hooks/use-auth.tsx:43-126 | from a settled, written-through state any operation sequence stays settled and written-through |
| Routing.Guard | src/components/ProtectedRoute.tsx:11-25 | exactly one of spinner, redirect and render: spinner when loading, otherwise a replacing redirect to /login carrying the requested location when anonymous, otherwise the page |
| Routing.Lookup | src/App.tsx:41-60 | a found route is declared for the path; no route is found only when none is declared |
| Routing.LookupDeclared | src/App.tsx:42-56 | each declared path finds its own route |
| Routing.ResolveDeclared | src/App.tsx:42-57 | "/", "/login" and "/signup" render directly; exactly the nine paths after them go through the guard |
| Routing.ResolveUnknown | src/App.tsx:60 | a path no route declares renders the not-found page, with no guard |
| Routing.DashboardScenarios | src/App.tsx:47-60 | an anonymous visitor at /dashboard is redirected to /login remembering /dashboard, a signed-in one sees the dashboard, and /payments is not found |
| Routing.PaymentsUndeclared | src/App.tsx:42-60 | no route is declared for /payments |
| Chat.SelectReplyChain | src/pages/Chatbot.tsx:127-139 | the reply is investment, budget, loan or credit exactly when that group's keyword occurs in the lower-cased input and no earlier group's does, and the default exactly when none does |
| Chat.FirstMatchLeast | src/pages/Chatbot.tsx:127-139 | the earliest rule that fires decides the reply |
| Chat.FirstMatchNone | src/pages/Chatbot.tsx:127 | when no rule fires the default reply is chosen |
| Chat.FiresRules | src/pages/Chatbot.tsx:131-137 | each rule of the table fires exactly when one of its keywords occurs |
| Chat.EarlierRuleWins | src/pages/Chatbot.tsx:131-135 | input mentioning both "fund" and "loan" gets the investment reply |
| Chat.KeywordInsideWord | src/pages/Chatbot.tsx:131 | "refund" triggers the investment reply |
| Chat.Send | src/pages/Chatbot.tsx:111-123 | blank input changes nothing; otherwise the raw input is appended as one user message, the input is cleared, loading is set and a reply is scheduled |
| Chat.Deliver | src/pages/Chatbot.tsx:126-150 | a due reply appends exactly one AI message with the canned reply for the input it answers and clears loading |
| Chat.EnterSendsWhileLoading | src/pages/Chatbot.tsx:153-157 | Enter without Shift sends even while loading, when the send button is disabled |
| Chat.InitialInv | src/pages/Chatbot.tsx:23-39 | the page starts with the welcome message only, in a state meeting the invariant |
| Chat.ApplyKeepsInv | src/pages/Chatbot.tsx:111-157 | every event keeps the invariant: user messages are non-blank, AI messages are the welcome or a canned reply, each user message is answered or pending, loading implies a pending reply |
| Chat.RunKeepsInv | src/pages/Chatbot.tsx:111-157 | any sequence of events keeps the invariant |
| Text.TrimEmptyIff | src/pages/Chatbot.tsx:112 | `trim()` yields "" exactly when every character is whitespace |
| Settings.AccountIssues | src/pages/Settings.tsx:48-55 | the name is rejected, on the name field, exactly when it is shorter than two characters |
| Settings.AccountDefaultName | src/pages/Settings.tsx:105-111 | the account form starts from the user's name, or "" with no user |
| Settings.WithDefaults | src/pages/Settings.tsx:57-62 | a given notification flag is kept; a missing one defaults to on for e-mail, push and summary and to off for marketing |
| Settings.DefaultsAgree | src/pages/Settings.tsx:57-62 | absent flags default to e-mail on, push on, marketing off, summary on, which are also the form's starting values |
| Settings.RefinementIssues | src/pages/Settings.tsx:76-91 | "current password required" arises exactly when the new password is truthy and the current one is not; "passwords do not match" exactly when new and confirmation are both truthy and differ |
| Settings.MinLengthAsWritten | src/pages/Settings.tsx:65-72 | as written, any present password shorter than eight characters is rejected, "" included |
| Settings.MinLength | src/pages/Settings.tsx:65-72 | the length rule applies to non-empty passwords only |
| Settings.SecurityIssuesIff | src/pages/Settings.tsx:64-92 | the form is accepted exactly when given passwords have eight characters, a new one comes with the current one, and a given confirmation matches |
| Settings.ConfirmationIssues | src/pages/Settings.tsx:73-91 | the confirmation has no length rule; an empty confirmation never causes an issue |
| Settings.OnSecuritySubmit | src/pages/Settings.tsx:156-173 | a truthy new password gives "Password updated" and clears all three fields; otherwise "No changes made" with the fields unchanged |
| Settings.SecurityIssuesAsWrittenIff | src/pages/Settings.tsx:64-92 | as written, the form is accepted exactly when every present password, "" included, has eight characters, a new one comes with the current one, and a given confirmation matches |
| Settings.SubmitSecurity | src/pages/Settings.tsx:64-173 | submitting is accepted exactly when the schema as written accepts; a rejection shows the schema's issues and an acceptance runs the handler |
| Settings.SecurityScenarios | src/pages/Settings.tsx:64-173 | a proper change is accepted and clears the form; the untouched form is rejected with the length message on the current password; a new password without the current one is rejected |
| Settings.SubmitSecurityIntended | src/pages/Settings.tsx:64-173 | with the length rule applied to non-empty passwords only, submitting is accepted exactly when the intended rules hold, and then runs the handler |
| Settings.IntendedScenarios | src/pages/Settings.tsx:64-173 | with the intended length rule, the untouched form submits as "No changes made", a proper change is still accepted, and a new password without the current one is rejected by the refinement alone |
| Settings.BlankRejectedAsWritten | src/pages/Settings.tsx:64-131 | as written, the form's own starting values fail the length rule |
| Settings.NoChangesUnreachableAsWritten | src/pages/Settings.tsx:64-173 | as written, every accepted submission has a non-empty new password, so "No changes made" is never shown |
| Settings.ParseTheme | src/pages/Settings.tsx:94-98 | only "light", "dark" and "system" are accepted, each as its own theme |
| Settings.ThemeRoundTrip | src/pages/Settings.tsx:94-98 | naming a theme and parsing the name gives the theme back; every other string is rejected |
| Settings.OnAppearanceSubmit | src/pages/Settings.tsx:175-181 | the theme becomes exactly the submitted one and the notice names it |
| Emergency.RoundHalfUp | src/pages/Emergency.tsx:21 | the result is the integer nearest to the quotient, with halves rounded up |
| Emergency.Progress | src/pages/Emergency.tsx:21 | progress is the smaller of 100 and the percentage rounded half up: never above either, equal to one of them, 100 once the target is reached, and non-negative for non-negative savings |
| Emergency.ProgressMonotone | src/pages/Emergency.tsx:21 | saving more never lowers the progress |
| Emergency.MonthsRemaining | src/pages/Emergency.tsx:24-25 | the fewest whole months whose contributions cover what remains: k months cover it and k-1 do not |
| Emergency.CoverageMonths | src/pages/Emergency.tsx:120 | the whole number of $1500 months the savings cover |
| Emergency.FullyFundedTooEarlyAsWritten | src/pages/Emergency.tsx:108-110 | at 9950 of 10000 the page says fully funded while 50 remain |
| Emergency.FundStatus | src/pages/Emergency.tsx:108-110 | "fully funded" exactly when nothing remains; otherwise the months to go, at least one |
| Emergency.StatusAgreesBelowHundred | src/pages/Emergency.tsx:108-110 | the written and intended lines agree wherever the written one shows months to go |
| Emergency.SampleFigures | src/pages/Emergency.tsx:14-25 | the sample shows 45% saved, 19 months to go and 3 months covered |
| Emergency.SetCurrent | src/pages/Emergency.tsx:145 | the current-amount handler replaces that field only |
| Emergency.SetTarget | src/pages/Emergency.tsx:154 | the target handler replaces that field only |
| Emergency.SetMonthly | src/pages/Emergency.tsx:164 | the contribution handler replaces that field only |
| Emergency.HandlersIndependent | src/pages/Emergency.tsx:145-164 | edits to different fields commute and a later edit of a field overrides an earlier one |
| Help.FilteredFaqs | src/pages/Help.tsx:92-95 | the shown FAQs are an in-order selection of the list: exactly those whose lower-cased question or answer contains the lower-cased query, each kept as many times as it is listed |
| Help.EmptyQueryKeepsAll | src/pages/Help.tsx:92-95 | an empty query shows every FAQ |
| Help.CaseVariantsAgree | src/pages/Help.tsx:93-94 | queries equal after lower-casing give the same result |
| Help.UpperCaseQueryAgrees | src/pages/Help.tsx:93-94 | a query and its upper-cased form give the same result |
| Help.BudgetQueryFindsFirst | src/pages/Help.tsx:15-20 | searching "BUDGET" shows the question about creating a budget |
| Help.ClearSearch | src/pages/Help.tsx:200 | clearing the search shows every FAQ |
| Dashboard.Greeting | src/pages/Dashboard.tsx:109-114 | morning exactly before 12, afternoon exactly from 12 to before 18, evening exactly from 18 |
| Dashboard.GreetingFollowsDay | src/pages/Dashboard.tsx:109-114 | greetings never go back as the hour grows, and each one occurs |
| Dashboard.DisplayName | src/pages/Dashboard.tsx:126 | the user's name when there is a non-empty one, else "Entrepreneur" |
| Dashboard.Merge | src/pages/Dashboard.tsx:190-194 | one point per expense month with that month's expense and the income at the same index; it fails exactly when the income series is shorter |
| Dashboard.MergeIgnoresExtraIncome | src/pages/Dashboard.tsx:190-194 | income points beyond the expense months are never read |
| Dashboard.SampleChart | src/pages/Dashboard.tsx:13-29 | the two sample series merge into six months, January 1500/3000 to June 1600/3900 |
| Dashboard.IsIncoming | src/pages/Dashboard.tsx:304 | an amount is highlighted exactly when its first character is '+' |
| Dashboard.SampleHighlights | src/pages/Dashboard.tsx:72-94 | of the recent transactions only the client payment is highlighted |

## Left out

- Rendering, styling, icons, charts, dialogs and toasts as UI. A toast is kept only as the `Notice` value an operation returns.
- Timers, promises and React state batching. Each operation is one atomic step. Overlapping sign-ins are not modelled. The chatbot's reply delay becomes an explicit `Timer` event that answers the oldest pending input.
- Browser storage and JSON. Storage is one `Option<User>` slot. A failing write is the `storageWritable` parameter. Malformed stored JSON, and a failing `removeItem` in sign-out, are not modelled.
- The chatbot's WhatsApp redirect (src/pages/Chatbot.tsx:51-109). It depends on the environment, `window.open` and timers.
- Clocks and locales: `Date.now()` ids, `new Date()`, `getHours` and date formatting. Ids, the current time and the hour are parameters. Nothing in the code makes `Date.now()` ids unique, so `Ledger.AddAllKeepsIdsUnique` takes fresh ids as a precondition.
- Floating point:
  - `parseFloat(...) || 0` and `Number(...)` coercion of form input;
  - `toFixed` formatting;
  - division by zero giving Infinity or NaN.
- Emergency.Progress: requires a positive target. With target 0 the page divides by zero; that case is not modelled.
- Emergency.Progress: rounds the exact percentage, not the double-precision product `(current / target) * 100`. The two differ when the product lands just below a half: for 29 of 200 the page computes 14.499999999999998 and shows 14, while the model gives 15.
- Emergency.MonthsRemaining: requires a positive contribution. With 0 the page shows Infinity months; that case is not modelled.
- Emergency.FundStatus: requires a positive target and a positive contribution, for the same two reasons.
- The validation library's internals:
  - the e-mail format rule of the account form;
  - form-state handling;
  - the order and wording of issues beyond those written in the schema.
  Issues are listed in schema order: length rules first, then the refinements, which still run when a length rule failed.
- The account and notification submit handlers only show a fixed notice (`Settings.AccountUpdated`, `Settings.NotificationsUpdated`).
- Case mapping beyond ASCII. `toLowerCase` is modelled on A-Z only.
- String comparison by UTF-16 code units. Strings are sequences of code points, which order the same way except against characters outside the Basic Multilingual Plane.
- Settings.AccountIssues, Settings.MinLength, Settings.MinLengthAsWritten: a length is the number of characters of the modelled string, while the validation library counts UTF-16 code units, so a name or password with characters outside the Basic Multilingual Plane is longer on the page than in the model.
- Router matching details:
  - paths match as exact strings, so case-insensitive matching, trailing slashes and query strings are not modelled;
  - the `Layout` wrapper is not modelled.
- The login and sign-up pages, and the static content pages (Index, Investments, Community, Learning, NotFound, Navbar, Sidebar, Layout, main).

## Findings

| source | as written | input that shows it | evidently intended | confidence | as-written member | corrected member |
|---|---|---|---|---|---|---|
| src/pages/Settings.tsx:64-75 | `.string().min(8).optional()` rejects the empty string, and the form starts with and resets to "" | the untouched form, or any submission with a blank new password: "Password must be at least 8 characters." on the current password | a blank field means "not given": the length rule applies to non-empty values, so an untouched form submits and shows "No changes made" | not executed | Settings.NoChangesUnreachableAsWritten | Settings.SubmitSecurityIntended |
| src/pages/Emergency.tsx:108-110 | "fully funded" is shown once the rounded progress reaches 100 | current 9950, target 10000: progress rounds to 100 while 50 remain | "fully funded" exactly when the savings reach the target | not executed | Emergency.FullyFundedTooEarlyAsWritten | Emergency.FundStatus |
