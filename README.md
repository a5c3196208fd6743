# Team expenses tracker — a Dafny model

This project models the core of a small team expense tracker: a React client
(`src/App.jsx`, its helpers `src/utils.js`, `src/api.js` and `src/localStore.js`,
and five dashboard components) over a PHP API (`api/expenses.php`, `api/auth.php`,
`api/users.php`, `api/upload.php`, `api/receipt.php`). Expenses are recorded in
US dollars or Botswana pula; the dashboard totals them per currency, converts pula
at a BWP-per-USD rate (13.5 when none is known), groups them per team member,
supplier and category, sorts and filters them, exports them as CSV and PDF tables,
and keeps a list of receipt links per expense. In local mode the same operations run
on a store kept in the browser instead of the API.

The modules follow the source files:

- `src/App.jsx`: `Reporting` (totals and grouping), `ExpenseList` (sorting, display,
  receipt links), `BulkImport`, `AppExport`;
- `src/utils.js`: `Currency`, `QueryString`, `Csv`;
- `src/api.js`: `ApiClient`; `src/localStore.js`: `LocalMode`;
- the five components: `SummaryCard`, `TotalSpendCard`, `AuditLogCard`, `ExpensesTable`,
  `ExpenseFilters`;
- the endpoints: `ExpensesApi`, `Auth`, `UsersApi`, `UploadApi`, `ReceiptApi`.

Helper modules (`Wrappers`, `Text`, `Seqs`, `Numbers`, `JsValues`, `Records`,
`Grouping`, `Sorting`, `Base64`, `ApiCommon`) hold the shared records and the
JavaScript and PHP primitives the files use (`trim`, `split`, `parseFloat`, `Number`,
`intval`, base64url, SQL placeholders, `basename`). Pure computations are functions
with lemmas. The local store, and the two tables the API writes (expenses with their
audit log, and users), are classes whose methods update their fields. The loops of
the source (the `forEach` accumulations, the `for` loops of the CSV parser and the
bulk import, the sorts) are methods with loop invariants, proved against the
functions that specify them.

Everything outside the program's own logic is a parameter: the clock, random bytes,
the file system, the database rows, password hashing, the HMAC, the JSON codec of
token claims and receipt lists, and the way JavaScript prints a number (`String(n)`,
`toLocaleString`).

## Model

| member | source | states |
|---|---|---|
| Currency.EffectiveRate | src/utils.js:26 | the rate divided by is never 0: it is the given rate or the fallback 13.5 |
| Currency.ToUsd | src/utils.js:24-28 | a non-BWP amount is its own USD value (a missing amount is 0); a BWP amount is the USD value times the effective rate |
| Currency.Symbol | src/utils.js:5-12 | the symbol is "P" exactly for BWP and "$" for every other currency, unknown ones included |
| Currency.FormatAmount | src/utils.js:10-14 | `formatAmount`: the symbol of a known currency (USD otherwise) and the locale text of `amount ?? 0`; its contract is stated by Currency.FormatAmountParts and Currency.FormatAmountNotDash |
| Currency.FormatAmountParts | src/utils.js:10-14 | a formatted amount is the currency's symbol followed by the locale text of the amount, 0 when missing |
| Currency.FormatAmountNotDash | src/utils.js:10-14 | a formatted amount is never the "—" the tables use for a missing value |
| Currency.CurrencyCode | src/components/ExpensesTable.jsx:91 | a missing or empty currency shows as "USD"; any other is shown upper-cased, with as many characters as it has |
| Currency.BucketSplit | src/App.jsx:146-151 | an expense counts wholly in USD or wholly in BWP: the two shares add up to its amount and one of them is 0; no currency means USD and "bwp" in any case means BWP |
| Currency.ToUsdAgreesWithBuckets | src/App.jsx:152 | for an upper-case currency, the USD value of one expense is its USD share plus its BWP share over the effective rate |
| Reporting.ActiveExpensesSpec | src/App.jsx:140 | the active expenses are exactly the expenses not removed, in their order |
| Reporting.ComputeCurrencyTotals | src/App.jsx:142-154 | the loop's USD and BWP totals are the sums of the shares over the list, and the equivalent is the USD total plus the BWP total over the effective rate |
| Reporting.SoftRemoveLowersTotals | src/App.jsx:140 | marking an active expense removed lowers each currency total by exactly that expense's share |
| Reporting.GroupByKeys | src/App.jsx:156-205 | the groups of the `Map` have distinct keys and none is empty |
| Reporting.TrackInsert | src/App.jsx:159-165 | one step of the `forEach` (create the entry when the key is new, else add to it) keeps the map's entries equal to the groups of the expenses seen so far |
| Reporting.AccOfAppend | src/App.jsx:160-165 | adding an expense to a group's entry is adding its share to the entry made from the earlier members, or to a fresh zero entry |
| Reporting.GroupWithCurrency | src/App.jsx:156-205 | the loop returns exactly the rows of the groups, one per key in order of first appearance, with their USD, BWP and equivalent totals |
| Reporting.GroupColumnSum | src/App.jsx:156-205 | when each row's column is the sum of a share over its group, the column adds up to that share over the whole list |
| Reporting.GroupRowsAddUp | src/App.jsx:142-205 | the USD and BWP columns of the grouped rows add up to the dashboard's currency totals, and the equivalents add up to the total equivalent |
| Reporting.EquivColumn | src/App.jsx:166-169 | summing equivalents row by row equals converting the summed USD and BWP columns |
| Reporting.GroupRowsAreGroups | src/App.jsx:156-205 | there is one row per distinct key, and each row's totals are the sums over the active expenses with that key |
| Grouping.FindKey | src/App.jsx:160 | `map.has(key)`: the index of the group with that key, or -1 exactly when no group has it |
| Grouping.InsertKeysUnique | src/App.jsx:160 | adding an item to the map keeps its keys distinct |
| Grouping.GroupByShape | src/App.jsx:156-205 | each group holds exactly the items with its key, in list order, and every item's key has a group |
| Grouping.GroupBySum | src/App.jsx:156-205 | a sum over the groups' members is the sum over the list |
| Grouping.Entry | src/App.jsx:160-165 | a group's entry exists exactly when the group has members |
| Grouping.AccumulateByKey | src/App.jsx:156-171 | the `forEach` over a `Map` yields one key and one entry per group, in order of first appearance, each entry the fold of the group's members |
| Sorting.SortedCopy | src/App.jsx:207-214 | `[...list].sort(cmp)` returns the list's elements, sorted by the comparison, and leaves an already sorted list as it is |
| Sorting.SortInPlace | src/App.jsx:254-261 | `list.sort(cmp)` permutes the array into sorted order and leaves an already sorted array as it is |
| ExpenseList.SummarySource | src/App.jsx:208 | the client-side grouped rows are used when there are any, the server's rows otherwise |
| ExpenseList.SummaryLeOrders | src/App.jsx:207-232 | the summary comparison (by name or by spend) is a total preorder |
| ExpenseList.SortSummary | src/App.jsx:207-232 | the summary list is a permutation of its source, by spend from largest to smallest or by lower-case name |
| ExpenseList.PaidFor | src/App.jsx:270 | `getPaidFor`: `user_name`, else the name of the user whose id text is the expense's, else the default ("—" here, "" in the sort key at line 237); the lookup it relies on is stated by ExpenseList.FindUser |
| ExpenseList.FindUser | src/App.jsx:237 | the user found has the id text asked for, and none is found only when no user has it |
| ExpenseList.SortValue | src/App.jsx:238-251 | the amount column sorts numerically (by amount, 0 when missing) and every other column as text; "removed by" is empty for an active expense |
| ExpenseList.CompareValsAntisym | src/App.jsx:253-259 | comparing two sort values one way is the negation of comparing them the other way |
| ExpenseList.CompareValsTrans | src/App.jsx:253-259 | the comparison of sort values is transitive |
| ExpenseList.DescIsReversedAsc | src/App.jsx:259 | descending order is ascending order with the arguments swapped |
| ExpenseList.ExpenseLeOrders | src/App.jsx:253-260 | the expense comparison is a total preorder for every column and direction |
| ExpenseList.SortExpenses | src/App.jsx:234-262 | the sorted expenses are a permutation of the list, sorted by the chosen column and direction, and an already sorted list is unchanged |
| ExpenseList.DisplayExpenses | src/App.jsx:264-268 | `displayExpenses`: the sorted list, or its active rows; its contract is stated by ExpenseList.DisplayExpensesSpec |
| ExpenseList.DisplayExpensesSpec | src/App.jsx:264-268 | with "show removed" every sorted expense is shown; without it exactly the active ones, in sorted order |
| ExpenseList.NonBlankEntriesAreUrls | src/App.jsx:275 | every entry kept from a stored list of receipt links is non-blank once trimmed |
| ExpenseList.ReceiptUrls | src/App.jsx:272-278 | the receipt links are never blank, and an expense without a receipt has none |
| ExpenseList.ReceiptUrlsOfStoredList | src/App.jsx:272-278 | a stored list of non-blank links reads back as the same list |
| ExpenseList.Attach | src/App.jsx:648-651 | attaching a non-blank link appends it, trimmed, to the current links; a blank one leaves them unchanged |
| ExpenseList.Detach | src/App.jsx:672 | `filter((u) => u !== urlToRemove)`; its contract is stated by ExpenseList.DetachSpec and ExpenseList.DetachUndoesAttach |
| ExpenseList.DetachSpec | src/App.jsx:672 | detaching removes every copy of the link and keeps every other link in order |
| ExpenseList.DetachUndoesAttach | src/App.jsx:648-672 | detaching the link just attached gives what detaching it from the links before would have given |
| LocalMode.MaxIdNumber | src/localStore.js:52 | the largest numeric id (a non-numeric one counts as 0), never below 0, and one of the ids unless it is 0 |
| LocalMode.NextId | src/localStore.js:50-53 | the next id is 1 for an empty list and otherwise one more than the largest numeric id, so larger than every id there |
| LocalMode.NextIdFresh | src/localStore.js:50-53 | the next id's text differs from the text of every id already stored |
| LocalMode.NewNamed | src/localStore.js:61-93 | the entry `addUser`, `addSupplier` and `addCategory` push; its contract is stated by LocalMode.NewNamedSpec |
| LocalMode.NewNamedSpec | src/localStore.js:61-93 | a new user, supplier or category gets a fresh id and the trimmed name, or "User n", "Supplier n" or "Category n" for a blank name |
| LocalMode.FindNamed | src/localStore.js:105-111 | `find` by id text returns an entry with that id, and nothing exactly when no entry has it |
| LocalMode.ExpenseRow | src/localStore.js:99-126 | the row `addExpense` pushes; its contract is stated by LocalMode.ExpenseRowSpec |
| LocalMode.ExpenseRowSpec | src/localStore.js:99-126 | a new expense row has a fresh id, its amount (0 for a non-numeric one), "USD" when no currency is given, the user, supplier and category names exactly when those ids are found, and no removal mark |
| LocalMode.IndexOfId | src/localStore.js:139 | `findIndex` by id text: the first row with that id, or -1 when there is none |
| LocalMode.LocalStore.constructor | src/localStore.js:6-11 | the store starts with the four lists given |
| LocalMode.LocalStore.EnsureDefaults | src/localStore.js:29-48 | an empty user list becomes the two default members and an empty category list the five default categories; suppliers and expenses are untouched |
| LocalMode.LocalStore.GetUsers | src/localStore.js:56-59 | seeds the defaults, then returns the users, never an empty list |
| LocalMode.LocalStore.GetSuppliers | src/localStore.js:69-72 | seeds the defaults, then returns the suppliers |
| LocalMode.LocalStore.GetCategories | src/localStore.js:82-85 | seeds the defaults, then returns the categories, never an empty list |
| LocalMode.LocalStore.AddUser | src/localStore.js:61-67 | appends the new user and returns it; the other lists are unchanged |
| LocalMode.LocalStore.AddSupplier | src/localStore.js:74-80 | appends the new supplier and returns it; the other lists are unchanged |
| LocalMode.LocalStore.AddCategory | src/localStore.js:87-93 | appends the new category and returns it; the other lists are unchanged |
| LocalMode.LocalStore.AddExpense | src/localStore.js:99-130 | appends the new expense row with the next id and returns it; the other lists are unchanged |
| LocalMode.LocalStore.DeleteExpense | src/localStore.js:132-135 | removes every expense with that id text; the other lists are unchanged |
| LocalMode.LocalStore.UpdateExpense | src/localStore.js:137-144 | an unknown id changes nothing and returns null; otherwise only the first matching row's receipt field changes, to the value given or "" for an empty one, and that row is returned |
| LocalMode.DeleteExpenseSpec | src/localStore.js:132-135 | after a delete no row has the id, every other row is kept, and their order is kept |
| LocalMode.UpdateTouchesOneRow | src/localStore.js:141 | a receipt update changes one field of one row and nothing else |
| LocalMode.StageIsFilter | src/localStore.js:149-163 | a filter step applied only when its criterion is set is one filter by "criterion unset or met" |
| LocalMode.StageOnFilter | src/localStore.js:149-163 | a filter step after a filter is one filter by both conditions |
| LocalMode.Query | src/localStore.js:147-165 | `queryExpenses`, the chain of conditional filters; its contract is stated by LocalMode.QueryIsFilter and LocalMode.QuerySpec |
| LocalMode.QueryIsFilter | src/localStore.js:147-165 | the chain of filters keeps exactly the rows that meet every criterion that is set |
| LocalMode.QuerySpec | src/localStore.js:147-165 | the query keeps, in order, exactly the rows meeting every set criterion; no criteria keeps all rows; querying twice is querying once |
| LocalMode.ByTotalDescOrders | src/localStore.js:194 | "larger total first" is a total preorder |
| LocalMode.NameEntry | src/localStore.js:189-193 | a group's entry is its name with the sum of its amounts |
| LocalMode.NameRowsAreSums | src/localStore.js:186-206 | one row per distinct supplier or category name ("Uncategorized" for none), each with the total of the rows of that name |
| LocalMode.SummaryTotal | src/localStore.js:167-171 | `summaryTotal`, the sum of the queried amounts; LocalMode.NameRowsAddUp and LocalMode.UserEntriesAddUp state that the grouped totals add up to it |
| LocalMode.NameRowsAddUp | src/localStore.js:186-206 | the per-name totals add up to the summary total of the same query |
| LocalMode.ByName | src/localStore.js:186-206 | the per-name rows, sorted by total from largest to smallest, adding up to the summary total |
| LocalMode.UserEntry | src/localStore.js:176-182 | a user's entry is seeded from the user list (or from the first expense of an unknown user) and totals that user's expenses |
| LocalMode.SumSeeds | src/localStore.js:177 | seeded entries start at 0 |
| LocalMode.ByUser | src/localStore.js:173-184 | the loop returns exactly the per-user rows of the specification |
| LocalMode.UserGroup | src/localStore.js:176-182 | a user's group is their seed followed by their expenses, and its total is the sum of those expenses |
| LocalMode.UserEntriesAddUp | src/localStore.js:176-182 | the per-user entries add up to the summary total |
| LocalMode.UserEntryTotals | src/localStore.js:176-182 | each per-user entry totals the queried expenses of that user key |
| LocalMode.UserRowsKept | src/localStore.js:183 | only entries with a positive total are kept, all of them, unless the query found nothing, when every entry is kept |
| LocalMode.UserRowsAddUp | src/localStore.js:173-184 | with non-negative amounts the per-user rows add up to the summary total |
| LocalMode.UserRowsSeeded | src/localStore.js:177-183 | with no expenses every known user has a row |
| QueryString.HexDigit | src/utils.js:37 | a hex digit of a percent escape is an unreserved character |
| QueryString.Percent | src/utils.js:37 | a byte is escaped as "%" and two hex digits |
| QueryString.PercentAll | src/utils.js:37 | the escape of a character's UTF-8 bytes holds only "%" and unreserved characters |
| QueryString.EncodeChar | src/utils.js:37 | `URLSearchParams` writes a character as itself, "+" for a space, or percent escapes |
| QueryString.FormEncode | src/utils.js:37 | an encoded value holds no "&" or "=", and a value of unreserved characters is left as it is |
| QueryString.QsFrom | src/utils.js:30-39 | the query string is empty exactly when no filter is set, and otherwise "&" followed by one "name=value" pair per set filter, in the order from, to, user, supplier, category |
| QueryString.Serialised | src/utils.js:37-38 | the joined pairs are empty exactly when there are none, and split back into the pairs |
| QueryString.ParamTextsSplit | src/utils.js:37 | joining the pairs with "&" and splitting at "&" gives the pairs back |
| QueryString.ParamTextShape | src/utils.js:37 | a pair holds no "&" and splits at "=" into its encoded name and value |
| QueryString.NoSeparators | src/utils.js:37 | an encoded name or value holds neither "=" nor "&" |
| QueryString.SetParamsOrder | src/utils.js:31-36 | the pairs written are the filters with a non-empty value, in the fixed order |
| ApiClient.TokenFromLoginResponse | src/api.js:14-23 | the token is never null; a falsy response gives ""; a truthy top-level `token`/`access_token`/`auth_token`/`jwt` (the first present) is the answer when it is text and gives "" otherwise; failing that, a truthy object `data` gives its first present `token`/`access_token`/`auth_token`, or ""; every other response gives "" |
| ApiClient.TopTokenWins | src/api.js:16-17 | a truthy top-level token is used whatever the nested `data` holds |
| ApiClient.TokenFieldWins | api/auth.php:104 | a login reply whose `token` is non-empty text, such as the API's `{ token, user }`, gives that token whatever else it carries |
| ApiClient.NestedTokenUsed | src/api.js:17-20 | with no top-level token, the non-empty text `token` nested in an object `data` is the answer |
| ApiClient.StoredToken | src/api.js:3-5 | the stored token, or "" when none is stored |
| ApiClient.Authorization | src/api.js:27-29 | a request carries "Bearer " and the token exactly when there is a token |
| ApiClient.Finish | src/api.js:38-40 | a request resolves with the response body exactly when the status is ok, and otherwise rejects with a non-empty message, the body's `error` first |
| ApiClient.DeleteReceiptPath | src/api.js:88-92 | a receipt delete is sent exactly for a string mentioning "receipt.php"; the path is "/receipt.php" when the URL has no "?", and otherwise "/receipt.php?" followed by everything after the URL's first "?" |
| ApiClient.DeleteReceiptQuery | src/api.js:90 | for a URL `a?b` where `a` has no "?", the query kept is all of `b`, later question marks included |
| ApiClient.BwpPerUsd | src/api.js:95-106 | a rate is returned exactly when `rates.BWP` is a finite positive number or `parseFloat` reads one from it (text, or an array through its first element), and the rate returned is that number; its date is the response's non-empty date string, else null |
| ApiClient.RateAsNumber | src/api.js:101-104 | a positive number sent as the rate is returned as it is, with the date when one is given; zero, a negative number or a missing rate gives null |
| ApiClient.RateAsArray | src/api.js:101-103 | a rate sent as an array whose first element is a number is read as that number (`[13, 2]` as 13), accepted when positive; an empty array gives null |
| JsValues.ParseFloatComma | src/api.js:101 | `parseFloat` stops at a comma, so the comma-joined text of an array reads as its first element's text |
| ApiClient.RateAsText | src/api.js:101 | a rate sent as the text of a whole number is read as that number, with no date |
| ApiClient.ListUser | src/api.js:116-118 | a user's id is the first of `id`, `uid`, `user_id` present; its name is `name` or `email`, or else "User" and an id part |
| ApiClient.NormalizeUserList | src/api.js:108-120 | every user listed has a non-empty id, and there are no more of them than raw entries |
| ApiClient.NormalizeUserListSpec | src/api.js:116-119 | the list keeps, in order, exactly the raw users that have an id |
| ApiClient.SingleUserResponse | src/api.js:112-114 | a response holding only `{ user }` lists that one user |
| BulkImport.RowCurrency | src/App.jsx:816-820 | an imported row's currency is "BWP" or "USD": BWP for "bwp" in any case, USD when neither `currency` nor `curr` is given |
| BulkImport.NameIndexKeys | src/App.jsx:795-796 | the name index has a key for exactly the lower-cased names of the list |
| BulkImport.NameIndexLastWins | src/App.jsx:795-796 | for names equal once lower-cased, `Object.fromEntries` keeps the id of the last one |
| BulkImport.NonFalsy | src/App.jsx:822-823 | `id \|\| null`: an id is kept exactly when it is not falsy |
| BulkImport.ResolvedGrows | src/App.jsx:803-815 | a name resolved against the categories or suppliers stays resolved when more are added |
| BulkImport.IndexGrows | src/App.jsx:803-815 | the grown name index stays consistent when more entries are added |
| BulkImport.AddedEntry | src/App.jsx:804-806 | a category or supplier created for an unknown name carries that name, up to case, and a numeric id |
| BulkImport.Resolve | src/App.jsx:802-815 | a known or empty name, or any name outside local mode, resolves through the index and changes nothing; an unknown name in local mode appends a new entry to its list and the index maps the name to its id |
| BulkImport.ParseAcceptedIsMap | src/App.jsx:798-802 | the rows the loop plans are the accepted rows (a date and a finite positive amount), parsed, in order |
| BulkImport.AllPlannedGrow | src/App.jsx:798-826 | rows planned so far stay correctly planned when entries are added later |
| BulkImport.AllPlannedAt | src/App.jsx:798-826 | a correct plan has one expense per parsed row, each planned from its row |
| BulkImport.ResolvedKnown | src/App.jsx:803 | a name already in the index resolves to its (non-falsy) id |
| BulkImport.ResolvedAdded | src/App.jsx:804-806 | a name added in local mode resolves to the new entry, and the index stays consistent |
| BulkImport.ResolveStep | src/App.jsx:802-815 | one name lookup keeps the index consistent, appends at most to its own list, and resolves the name |
| BulkImport.PlannedStep | src/App.jsx:817-825 | appending a row planned from the draft with its resolved ids extends a correct plan |
| BulkImport.PlanRow | src/App.jsx:798-826 | one iteration of the loop extends a correct plan by the row, only ever appending categories and suppliers |
| BulkImport.PlanImport | src/App.jsx:795-826 | the loop plans exactly the accepted rows, with the user id only in local mode, and only appends categories and suppliers |
| BulkImport.PlanByRow | src/App.jsx:798-826 | the plan has one expense per accepted row, expense `i` planned from accepted row `i` |
| BulkImport.AppendAllSpec | src/App.jsx:828 | adding the planned expenses keeps the existing ones in front, appends one per plan, and gives each a fresh id |
| BulkImport.AddAll | src/App.jsx:828 | the store's expenses become the old ones with the planned ones added in order; nothing else changes |
| BulkImport.HandleBulkCsv | src/App.jsx:786-833 | no CSV rows leaves the store unchanged; otherwise expense `i` is planned from accepted row `i`: its date, amount, currency and description from the row, the user id in local mode, and the category and supplier resolved by name or, in local mode, newly added; categories and suppliers are only appended to, and in local mode every planned expense is added to the store |
| AppExport.ExportedAmount | src/App.jsx:287-288 | an active expense exports its amount and a removed one its negation |
| AppExport.ExportRow | src/App.jsx:289-300 | a row has the ten columns of the header; the amount column is the exported amount, the currency column the upper-cased currency ("USD" by default), and "Removed by" is blank for an active expense |
| AppExport.ExportTexts | src/App.jsx:286-301 | one text row per displayed expense, in display order |
| AppExport.ExportCsv | src/App.jsx:302-303 | the file starts with the byte order mark |
| AppExport.HeadersPlain | src/App.jsx:285 | the header names need no quoting |
| AppExport.RowPlain | src/App.jsx:302 | a row whose cells need no quoting renders cell by cell |
| AppExport.ExportReadBack | src/App.jsx:280-303 | when no cell needs quoting, the exported file reads back as the header followed by the rows |
| AppExport.SumNegated | src/App.jsx:288 | the sum of negated amounts is the negated sum |
| AppExport.ActiveColumn | src/App.jsx:288 | the active expenses export their amounts unchanged |
| AppExport.RemovedColumn | src/App.jsx:288 | the removed expenses export their amounts negated |
| AppExport.ExportAmountsNet | src/App.jsx:286-288 | the amount column adds up to the active total minus the removed total |
| Csv.DoubleQuotes | src/utils.js:43 | doubling quotes changes nothing in text without quotes and adds or removes no other character |
| Csv.UndoubleDouble | src/utils.js:43 | undoubling the doubled quotes gives the text back |
| Csv.Escape | src/utils.js:42-45 | a value without `"`, `,`, CR or LF is written as it is; any other is wrapped in quotes |
| Csv.EscapeRoundTrip | src/utils.js:42-45 | unquoting an escaped value gives the value back |
| Csv.JoinCrlf | src/utils.js:50 | lines joined with CRLF are the lines ended by CR joined with LF |
| Csv.SplitLinesJoin | src/utils.js:50 | lines without LF joined with CRLF split back into the same lines |
| Csv.LineReadBack | src/utils.js:50 | a line of fields that need no quotes splits at "," back into the fields and holds no LF |
| Csv.ReadAfterBom | src/utils.js:51 | reading a document skips its byte order mark |
| Csv.LinesReadBack | src/utils.js:50 | the header line and the row lines split back into the header and the rows |
| Csv.DocumentReadBack | src/utils.js:48-51 | a document whose fields need no quotes reads back as its header followed by its rows |
| Csv.SplitLines | src/utils.js:62 | splitting at line breaks gives at least one line |
| Csv.Fields | src/utils.js:67 | splitting a line at commas gives at least one field |
| Csv.RowOf | src/utils.js:68-71 | every header name is a key of the parsed row |
| Csv.RowOfKeys | src/utils.js:68-71 | the keys of a parsed row are exactly the header names, no others |
| Csv.RowOfColumns | src/utils.js:69-71 | with distinct header names, column `j` holds the `j`-th value, or "" when the line is shorter |
| Csv.BuildRow | src/utils.js:68-71 | the `forEach` over the header builds exactly that row |
| Csv.RowsOf | src/utils.js:63-74 | fewer than two lines give no rows, otherwise one row per line after the header |
| Csv.ParseLines | src/utils.js:63-74 | the `for` loop yields exactly one row per line after the header, each built from the header names and that line's fields |
| Csv.ParseExpenseCsv | src/utils.js:61-75 | the rows of the trimmed text's non-blank lines: none for fewer than two lines, otherwise one per data line keyed by the lower-cased, trimmed header |
| ExpensesApi.CleanEntries | api/expenses.php:35 | the entries kept from a list are trimmed and none is empty or "0" |
| ExpensesApi.CleanIdempotent | api/expenses.php:35 | cleaning a cleaned list changes nothing |
| ExpensesApi.ToArray | api/expenses.php:33-42 | `receipt_url_to_array`: null or blank text gives no links, text not starting with "[" gives the trimmed text alone, a list gives its cleaned entries, and no link is empty or padded |
| ExpensesApi.ToDb | api/expenses.php:45-51 | `receipt_url_to_db` stores null exactly for null or a value with no non-blank entry |
| ExpensesApi.ReceiptRoundTrip | api/expenses.php:33-51 | what is stored for a submitted value reads back as its cleaned entries, given a JSON codec that decodes what it encodes |
| ExpensesApi.ReadEncoded | api/expenses.php:38-39 | a stored JSON list reads back as its cleaned entries |
| ExpensesApi.EmptyJsonTextIsOneEntry | api/expenses.php:38 | the text "[]" decodes to an empty, falsy array, so it is read back as the single link "[]" |
| ExpensesApi.BoundAllAppend | api/expenses.php:56-61 | the parameters bound by a list of conditions grow by the parameters of the one appended |
| ExpensesApi.FilterCriteria | api/expenses.php:56-61 | the filter conditions are empty exactly when no filter is given, and never include the removal condition |
| ExpensesApi.CriterionPlaceholders | api/expenses.php:56-61 | each condition has as many "?" as parameters it binds |
| ExpensesApi.JoinedPlaceholders | api/expenses.php:63 | joining the conditions with AND keeps the count of "?" equal to the parameters |
| ExpensesApi.WherePlaceholders | api/expenses.php:63 | the WHERE clause has one "?" per bound parameter |
| ExpensesApi.AddFilterClauses | api/expenses.php:56-61 | the five `if`s append one condition and its parameter per filter given, in order |
| ExpensesApi.AddPart | api/expenses.php:56-61 | one `if` appends its condition and parameter when its filter is given |
| ExpensesApi.BoundAllConcat | api/expenses.php:56-61 | the parameters of two lists of conditions are the parameters of each, in order |
| ExpensesApi.BuildFilters | api/expenses.php:53-64 | `build_filters`: the removal condition then the filter conditions, with exactly one parameter per "?" |
| ExpensesApi.ListFilters | api/expenses.php:74-82 | the list mode's WHERE clause has the filter conditions only (none when no filter is given) and one parameter per "?" |
| ExpensesApi.Matching | api/expenses.php:84-105 | every row selected is a row of the table that meets every condition |
| ExpensesApi.MatchingKeeps | api/expenses.php:84-105 | every row of the table that meets every condition is selected |
| ExpensesApi.AggregateSkipsRemoved | api/expenses.php:54 | the aggregate modes count a row exactly when it is not removed and meets the filters |
| ExpensesApi.ListIgnoresRemoval | api/expenses.php:73-82 | removing a row does not change whether the list mode selects it |
| ExpensesApi.SummaryTotal | api/expenses.php:113-118 | `COALESCE(SUM(e.amount), 0)` over the active matching rows; its contract is stated by ExpensesApi.SummaryAppend and ExpensesApi.AggregateSkipsRemoved |
| ExpensesApi.SummaryAppend | api/expenses.php:113-118 | a new row adds its amount to the summary total exactly when it is active and meets the filters |
| ExpensesApi.NewerFirstOrders | api/expenses.php:100 | "date descending, then id descending" is a total preorder |
| ExpensesApi.ListExpenses | api/expenses.php:72-111 | the list is the first min(500, matches) rows of the newest-first order: selected rows, each with its receipt links read back, sorted, none more often than it is selected, all of them when at most 500 match, and every selected row left out sorts after every listed one |
| ExpensesApi.LimitKeeps | api/expenses.php:100-101 | `LIMIT n` after the sort keeps the first n rows: sorted, a sub-multiset of the selection, all of it when nothing is cut off, and every selected row cut off sorts after each kept row |
| ExpensesApi.SortNewestFirst | api/expenses.php:100 | the rows sorted newest first are a permutation of the selection |
| ExpensesApi.ReadReceipts | api/expenses.php:106-109 | the `foreach` replaces each row's receipt field by its links and changes nothing else |
| ExpensesApi.ModeOf | api/expenses.php:67-178 | no mode means list; a mode other than the six known ones is refused |
| ExpensesApi.StoredAmount | api/expenses.php:196 | a stored amount is never negative, because the sign is stripped |
| ExpensesApi.StoredAmountOfDigits | api/expenses.php:196 | digits are stored as their value, with or without a minus sign before them |
| ExpensesApi.KeptAfterSign | api/expenses.php:196 | stripping everything but digits and dots drops a leading "-" |
| ExpensesApi.KeptDigits | api/expenses.php:196 | stripping keeps digits unchanged |
| ExpensesApi.OptionalId | api/expenses.php:206-207 | a supplier or category id is stored exactly when the field is not PHP-empty |
| ExpensesApi.NewRow | api/expenses.php:184-214 | the inserted row has the new id, the caller as adder, the given user or else the caller, a non-negative amount, "USD" by default, the trimmed non-empty date, and no removal mark |
| ExpensesApi.SetReceipt | api/expenses.php:245-247 | the update rewrites the receipt field of the rows with that id and nothing else |
| ExpensesApi.SoftRemove | api/expenses.php:262 | the update keeps every row |
| ExpensesApi.SoftRemoveEffect | api/expenses.php:262 | only the active rows with that id get the removal time and remover; other rows and all ids are unchanged; no active row with that id remains |
| ExpensesApi.SoftRemoveMonotone | api/expenses.php:262 | removing one expense never reactivates another |
| ExpensesApi.ExpenseStore.constructor | api/expenses.php:16-23 | the table and the audit log start empty |
| ExpensesApi.ExpenseStore.Post | api/expenses.php:181-226 | 400 and no change without a date or an amount; otherwise 201, one new row with the next id, and one "added" audit entry by the caller |
| ExpensesApi.ExpenseStore.Patch | api/expenses.php:228-252 | 400 for a missing id or no receipt field, 404 when no row has the id, otherwise the receipt is rewritten; the audit log never changes |
| ExpensesApi.ExpenseStore.Delete | api/expenses.php:254-280 | 400 for a missing id, 404 when no active row has it, otherwise the row is soft-removed by the caller and one "removed" audit entry is added |
| Base64.Encode | api/auth.php:12 | `base64_encode`: one letter per six bits and "=" padding; its contract is stated by Base64.RoundTrip and Base64.UrlEncodeLetters |
| Base64.Decode | api/auth.php:24 | lenient `base64_decode`; its contract is stated by Base64.RoundTrip, Base64.PadSkipped and Base64.UrlDecodeLetters |
| Base64.RoundTrip | api/auth.php:12-24 | decoding the padded encoding of any bytes gives the bytes back |
| Base64.PadSkipped | api/auth.php:24 | the lenient decoder skips an "=" wherever it stands |
| Base64.LetterValue | api/auth.php:12 | each six-bit value has its own letter of the alphabet, which reads back as that value |
| Base64.SextetsLength | api/auth.php:12 | unpadded base64 has four letters per three bytes and two or three for a final one or two bytes |
| Base64.GroupRoundTrip | api/auth.php:12-24 | the four letters of a three-byte group decode to those three bytes |
| Base64.OctetsOfSextets | api/auth.php:12-24 | decoding the letters of any bytes gives the bytes back |
| Base64.OneByte | api/auth.php:12-24 | a final single byte survives its two letters |
| Base64.TwoBytes | api/auth.php:12-24 | two final bytes survive their three letters |
| Base64.SextetsCons | api/auth.php:12 | the letters of a text are those of its first three bytes followed by those of the rest |
| Base64.OctetsCons | api/auth.php:24 | decoding a group of four letters and a rest is decoding each |
| Base64.OctetsStep | api/auth.php:12-24 | one group of the round trip gives the first three bytes back |
| Base64.GroupOctets | api/auth.php:24 | a group's four letters decode to its bytes before the rest is decoded |
| Base64.TrimPadding | api/auth.php:12 | `rtrim(…, '=')` removes exactly the padding |
| Base64.UrlEncodeLetters | api/auth.php:12 | the URL-safe text is the letters with "+" and "/" replaced by "-" and "_", unpadded |
| Base64.UrlEncodeSafe | api/auth.php:12-15 | the URL-safe text holds only letters, digits, "-" and "_", so never the "." between the token's parts |
| Base64.UrlDecodeLetters | api/auth.php:24 | decoding URL-safe letters maps "-" and "_" back and decodes the letters |
| Base64.UrlEncode | api/auth.php:12 | `rtrim(strtr(base64_encode(...), '+/', '-_'), '=')`; its contract is stated by Base64.UrlEncodeLetters, Base64.UrlEncodeSafe and Base64.UrlRoundTrip |
| Base64.UrlDecode | api/auth.php:24 | `base64_decode(strtr(..., '-_', '+/'))`; its contract is stated by Base64.UrlDecodeLetters and Base64.UrlRoundTrip |
| Base64.UrlRoundTrip | api/auth.php:12-24 | decoding the URL-safe encoding of any bytes gives the bytes back (encoded when signing, decoded when verifying) |
| ApiCommon.PlaceholdersAppend | api/expenses.php:63 | the "?" of two texts put together add up |
| ApiCommon.PlaceholdersNone | api/expenses.php:54 | a text without "?" has no placeholder |
| ApiCommon.EndsInPlaceholder | api/expenses.php:56-61 | a condition ending in a single "?" has one placeholder |
| ApiCommon.Basename | api/receipt.php:7 | `basename` never contains "/" |
| ApiCommon.Extension | api/upload.php:40 | `pathinfo(…, PATHINFO_EXTENSION)` contains neither "." nor "/" |
| Auth.SignToken | api/auth.php:9-16 | `sign_token`: the URL-safe claims with `exp` twelve hours on, ".", and their URL-safe HMAC; its contract is stated by Auth.SignedPartsDotFree and Auth.SignThenVerify |
| Auth.VerifyToken | api/auth.php:18-28 | `verify_token`; its contract is stated by Auth.VerifySigned, Auth.VerifyAcceptsOnlySigned, Auth.SignedTokenExpires and Auth.VerifyEarlier |
| Auth.ChangePassword | api/auth.php:48-64 | the `change_password` action; its contract is stated by Auth.ChangePasswordOutcome and Auth.ChangePasswordUpdatesCaller |
| Auth.SetPassword | api/auth.php:67-79 | the `set_password` action; its contract is stated by Auth.SetPasswordOutcome |
| Auth.Login | api/auth.php:81-104 | the login; its contract is stated by Auth.LoginOutcome and Auth.LoginTokenVerifies |
| Auth.HandlePost | api/auth.php:39-105 | POST: the two password actions need a valid token, anything else is a login; its contract is stated by Auth.PostWithoutTokenIsLogin |
| Auth.HandleGet | api/auth.php:107-117 | GET; its contract is stated by Auth.GetOutcome |
| Auth.Handle | api/auth.php:37-119 | dispatch by method; its contract is stated by Auth.OtherMethodsRefused |
| Auth.SignedPartsDotFree | api/auth.php:9-16 | neither part of a signed token contains ".", so the token has exactly one |
| Auth.VerifySigned | api/auth.php:18-28 | a body with its own signature is accepted exactly when its claims decode and have not expired |
| Auth.VerifyAcceptsOnlySigned | api/auth.php:18-28 | an accepted token is a body, ".", and that body's signature, its claims decode to what is returned, and they have not expired |
| Auth.SignThenVerify | api/auth.php:9-28 | a token signed at some time is accepted until twelve hours later, with its claims and that expiry |
| Auth.SignedTokenExpires | api/auth.php:10-26 | the same token is refused more than twelve hours after it was signed |
| Auth.VerifyEarlier | api/auth.php:26 | a token accepted now was accepted at any earlier time |
| Auth.BearerToken | api/auth.php:109-112 | a token is read exactly from a header starting with "Bearer ", and it is the rest of the header (POST reads the header the same way, line 42) |
| Auth.FirstWhere | api/auth.php:55-57 | the row a query fetches meets its condition; none is fetched only when no row does |
| Auth.UserById | api/auth.php:55-57 | the user found has that id; none is found only when no user has it |
| Auth.UserByEmail | api/auth.php:89-91 | the user found has that email; none is found only when no user has it |
| Auth.ChangePasswordOutcome | api/auth.php:48-64 | 400 for a new password shorter than six characters, 401 when the caller is unknown or the current password does not verify, and otherwise the caller's hash is set to the new password's |
| Auth.ChangePasswordUpdatesCaller | api/auth.php:61-62 | a password change rewrites the hash of the caller's row and no other row |
| Auth.SetPasswordOutcome | api/auth.php:67-79 | 403 for a non-admin, 400 for a target id below 1 or a short password, otherwise the target's hash is set |
| Auth.LoginOutcome | api/auth.php:82-104 | 400 without an email or a password, 401 when the email is unknown or the password does not verify, otherwise a token signed for that user's claims |
| Auth.LoginTokenVerifies | api/auth.php:97-104 | the token a login returns is accepted for twelve hours and carries the user's claims |
| Auth.PostWithoutTokenIsLogin | api/auth.php:43-81 | a POST without a valid token is a login, whatever its action |
| Auth.GetOutcome | api/auth.php:107-117 | a GET answers with the token's claims exactly when a Bearer token is accepted, and 401 otherwise |
| Auth.OtherMethodsRefused | api/auth.php:119 | any method other than POST and GET gets 405 |
| UploadApi.Upload | api/upload.php:9-73 | the whole endpoint; its contract is stated by UploadApi.UploadChecks, UploadApi.SizeLimitInclusive and UploadApi.SavedNameShape |
| UploadApi.StoredName | api/upload.php:59-61 | 16 hex digits of randomness, "_" and the safe name; its contract is stated by UploadApi.StoredNameSafe and UploadApi.StoredNameParts |
| UploadApi.FieldOf | api/upload.php:16-19 | the "file" field is used exactly when it holds a usable upload, the "receipt" field otherwise |
| UploadApi.SafeName | api/upload.php:59-60 | the stored name keeps only letters, digits, ".", "_" and "-", and is "file" when nothing is left |
| UploadApi.Hex | api/upload.php:61 | `bin2hex` gives two lower-case hex digits per byte |
| UploadApi.RawUrlEncodeUnreserved | api/upload.php:71 | `rawurlencode` leaves a text of unreserved characters unchanged |
| UploadApi.UploadChecks | api/upload.php:9-73 | 405 for any method but POST, 400 when neither field holds a usable upload, and a file is saved only when it is at most 10 MB, has an allowed extension, and the directory and the move succeed |
| UploadApi.SizeLimitInclusive | api/upload.php:32-33 | a file of exactly 10 MB is accepted |
| UploadApi.SavedNameShape | api/upload.php:59-73 | a saved file is named 16 hex digits, "_" and the safe name, every character safe, and its URL is the receipt path followed by that name |
| UploadApi.StoredNameSafe | api/upload.php:59-71 | the stored name is never empty and needs no URL escaping |
| UploadApi.SafeNameKeepsExtension | api/upload.php:40-60 | for a name with an allowed extension the safe name keeps the extension, after a dot |
| UploadApi.StoredNameParts | api/upload.php:40-61 | the stored name of an upload with an allowed extension ends in "." and that extension |
| UploadApi.PrefixedParts | api/upload.php:61 | putting the random prefix in front does not change the extension |
| UploadApi.SafeNameOf | api/upload.php:59-60 | a filtered name with a dot and an extension is the safe name, with that extension |
| UploadApi.AllowedExtensionDot | api/upload.php:40-42 | an allowed extension follows the last dot of the name's base |
| UploadApi.EmptyNotAllowed | api/upload.php:41-42 | a name without an extension is refused |
| UploadApi.AllowedLetters | api/upload.php:41 | the allowed extensions are non-empty and made of safe characters other than "." and "/" |
| UploadApi.ExtensionOfDotted | api/upload.php:40 | safe text, a dot and an extension has that extension, and is not PHP-falsy |
| ReceiptApi.Receipt | api/receipt.php:5-63 | the whole endpoint; its contract is stated by ReceiptApi.InvalidNameRefused, ReceiptApi.DeleteOutcome and ReceiptApi.ServeOutcome |
| ReceiptApi.Mime | api/receipt.php:49-58 | `$mimes[$ext] ?? "application/octet-stream"`; its contract is stated by ReceiptApi.MimeTable |
| ReceiptApi.RequestedName | api/receipt.php:6-7 | the requested name, reduced by `basename`, contains no "/" |
| ReceiptApi.DispositionName | api/receipt.php:62 | `basename($f, ".pdf")` drops a final ".pdf" when something is left before it, and otherwise keeps the name |
| ReceiptApi.InvalidNameRefused | api/receipt.php:8-17 | an empty name or one with a character outside letters, digits, ".", "_" and "-" gets 400 "Invalid file", as JSON exactly for DELETE |
| ReceiptApi.DeleteOutcome | api/receipt.php:21-41 | a DELETE needs a signed-in caller, gets 404 for a missing file, 500 when unlinking fails, and otherwise deletes the file |
| ReceiptApi.ServeOutcome | api/receipt.php:43-63 | any other method serves an existing file with the type of its extension and the disposition name, and 404 otherwise, with no sign-in |
| ReceiptApi.MimeTable | api/receipt.php:49-58 | exactly the six allowed extensions have their own type, jpg and jpeg both image/jpeg; anything else is application/octet-stream |
| ReceiptApi.StoredNamesPass | api/receipt.php:7-8 | every name the upload endpoint stores passes the receipt endpoint's name check unchanged (names built at api/upload.php:59-61) |
| ReceiptApi.NoSlashBasename | api/receipt.php:7 | `basename` leaves a name of safe characters unchanged |
| ReceiptApi.SavedUploadServedByType | api/receipt.php:43-58 | a saved upload is served, without sign-in, with the type of the extension it was uploaded with (a file saved by api/upload.php:40-71) |
| UsersApi.ClampRole | api/users.php:27-29 | a role is "user" or "admin"; any other text becomes "user" (PATCH clamps the same way, lines 66-67) |
| UsersApi.ByNameOrders | api/users.php:13 | ordering by name is a total preorder |
| UsersApi.Fields | api/users.php:53-70 | there is something to update exactly when the name, the email or the role is given |
| UsersApi.BuildUpdates | api/users.php:51-70 | a given but blank email is refused; otherwise one assignment and one parameter per field given, in the order name, email, role |
| UsersApi.AssignmentsPlaceholders | api/users.php:76 | the assignments joined with ", " have one "?" per field |
| UsersApi.FieldPlaceholder | api/users.php:54-68 | each assignment has one "?" |
| UsersApi.UpdatePlaceholders | api/users.php:75-77 | the UPDATE statement has one "?" per bound parameter, the id included |
| UsersApi.Assign | api/users.php:76-77 | an update never changes the id or the password hash |
| UsersApi.AssignOnlyPresent | api/users.php:53-70 | the name, email and role given are stored trimmed (the role clamped), and the others are kept |
| UsersApi.AssignConcat | api/users.php:76 | assigning two lists of fields is assigning one after the other |
| UsersApi.AssignWhere | api/users.php:76-77 | only the account with that id changes |
| UsersApi.UserDirectory.constructor | api/users.php:13 | the table starts empty |
| UsersApi.UserDirectory.List | api/users.php:12-15 | the listing holds every account's public fields, ordered by name |
| UsersApi.UserDirectory.Create | api/users.php:17-42 | 400 without an email or a password of six characters, 400 for a taken email, otherwise one account with the next id, the trimmed name (or the email when it is empty or "0"), the hashed password and the clamped role |
| UsersApi.UserDirectory.HasEmail | api/users.php:31-35 | the lookup by email finds a row exactly when some account already has that email |
| UsersApi.UserDirectory.Update | api/users.php:44-79 | 400 for an id below 1, a blank email or nothing to update; otherwise the fields given are assigned to that account |
| UsersApi.UserDirectory.Handle | api/users.php:9-85 | GET lists every account's public fields sorted by name and changes nothing; an admin POST has the effect of Create (its 400 cases or the new account) and an admin PATCH that of Update; POST and PATCH by a non-admin get 403 and change nothing; other methods get 405; PATCH never adds or removes an account |
| UsersApi.CreateKeepsEmailsDistinct | api/users.php:31-39 | creating an account with an untaken email keeps emails distinct |
| SummaryCard.LabelHeader | src/components/SummaryCard.jsx:26 | the label column's header is never empty: a title without a leading "By" and white space is kept ("Name" when empty); with one, what follows the white space, or "Name" when nothing does |
| SummaryCard.TrimStartOfSpaces | src/components/SummaryCard.jsx:26 | dropping leading white space before text that does not start with white space leaves the text |
| SummaryCard.LabelHeaderOfBy | src/components/SummaryCard.jsx:26 | "By" in any case, white space and a label give the label as the header, or "Name" for no label |
| SummaryCard.LabelChain | src/components/SummaryCard.jsx:90 | a row's label is its own name field if present, else the supplier name, else the category name, else "—" (the same chain as the exports, lines 32 and 44) |
| SummaryCard.CsvRows | src/components/SummaryCard.jsx:31-37 | the CSV has one row per item, of all the items whatever is shown |
| SummaryCard.PdfRows | src/components/SummaryCard.jsx:43-49 | the PDF has one row per item, of all the items |
| SummaryCard.ExportsAgree | src/components/SummaryCard.jsx:29-51 | the CSV and PDF rows have four cells and the same label; a currency is blank in the CSV exactly where the PDF shows "—", which is exactly where the item has no amount in it |
| SummaryCard.SliceEnd | src/components/SummaryCard.jsx:24 | `slice(0, n)` keeps the first `n` items, all of them when there are fewer, and counts a negative `n` from the end |
| SummaryCard.DisplayItems | src/components/SummaryCard.jsx:24 | the items shown are a prefix of the items: all of them without `maxItems`, else the first `maxItems` |
| SummaryCard.ViewIsPrefixOfExports | src/components/SummaryCard.jsx:24-109 | the list shows the first items, in order, with the labels the exports give them, the exports hold every item, and the empty message appears exactly when there are no items at all |
| SummaryCard.LineTotalIsExportTotal | src/components/SummaryCard.jsx:95-104 | for a row with a USD column, or with no equivalent, the total on the card is the total the PDF exports |
| TotalSpendCard.Layout | src/components/TotalSpendCard.jsx:11-26 | both exports have three rows of three cells labelled USD, BWP and Total; the CSV is blank exactly where the PDF shows "—", the equivalent of the currency rows and the amount of the total row |
| TotalSpendCard.NullTotalsAreZero | src/components/TotalSpendCard.jsx:12-26 | a null total is exported as 0, in the CSV and in the PDF |
| TotalSpendCard.CsvReadBack | src/components/TotalSpendCard.jsx:10-17 | when the numbers print without quotes, commas or line breaks, the CSV reads back as the header and the three rows |
| TotalSpendCard.PdfMatchesCard | src/components/TotalSpendCard.jsx:21-46 | the card shows the same formatted amounts as the PDF |
| AuditLogCard.Prefix | src/components/AuditLogCard.jsx:29-34 | `slice(0, n)` is the first `n` characters, or the whole text when it is shorter |
| AuditLogCard.CsvRows | src/components/AuditLogCard.jsx:13-21 | the CSV has one row per log entry, in log order |
| AuditLogCard.PdfRows | src/components/AuditLogCard.jsx:26-35 | the PDF has one row per log entry, in log order |
| AuditLogCard.ViewCases | src/components/AuditLogCard.jsx:39-86 | in local mode the notice and no exports; otherwise both exports, and a row per entry or the empty row spanning all seven columns |
| AuditLogCard.PdfCutsScreenRow | src/components/AuditLogCard.jsx:26-79 | the PDF row is the screen row with the action cut to 20 characters, the user to 15 and the description to 30 |
| AuditLogCard.MissingFields | src/components/AuditLogCard.jsx:13-79 | a field is blank in the CSV exactly when it is missing or empty, and "—" on screen exactly when it is missing (or is "—"); a missing amount is blank and "—" |
| AuditLogCard.RowsInLogOrder | src/components/AuditLogCard.jsx:13-79 | the table and both exports are built row by row from the same entries in the same order |
| AuditLogCard.MissingLogIsEmpty | src/components/AuditLogCard.jsx:9-22 | a missing log exports just the header |
| ExpensesTable.ColumnsShape | src/components/ExpensesTable.jsx:5-17 | eleven columns; exactly the last two, Receipt and Action, cannot sort; the nine sort keys are distinct |
| ExpensesTable.HeaderClickToggles | src/components/ExpensesTable.jsx:62-70 | a click on the sorted column flips the direction, a click on another sortable column sorts by it ascending, and Receipt and Action do nothing |
| ExpensesTable.DoubleClick | src/components/ExpensesTable.jsx:62-70 | two clicks on the sorted column restore the sort; on another column they end sorted by it descending |
| ExpensesTable.IconFollowsClick | src/components/ExpensesTable.jsx:72-76 | after a click the arrow sits on the clicked column and shows the new direction |
| ExpensesTable.ReceiptCellCases | src/components/ExpensesTable.jsx:137-199 | Attach is offered exactly for an active row; no links shows nothing, or "—" for a removed row; one link shows View with that link; several show "View all" with their count |
| ExpensesTable.RowCases | src/components/ExpensesTable.jsx:86-121 | nine text cells plus the receipt and action cells; a removed row is struck through and says "Removed" and who removed it; an active row shows "—" there and offers Remove exactly when the user may remove it |
| ExpensesTable.BodyCases | src/components/ExpensesTable.jsx:86-129 | an empty list shows one placeholder spanning all eleven columns; any other list one row per expense, in order |
| ExpenseFilters.EditChangesOnlyItsField | src/components/ExpenseFilters.jsx:37-64 | each control sets its own filter to the value chosen and leaves the other three alone |
| ExpenseFilters.ClearResets | src/components/ExpenseFilters.jsx:74 | clearing sets all four filters to "", where the app starts (src/App.jsx:64-69), and clearing twice is clearing once |
| ExpenseFilters.EditsCommute | src/components/ExpenseFilters.jsx:37-64 | edits of two different filters can be made in either order |
| ExpenseFilters.InitialRate | src/App.jsx:95-102 | the rate the app starts from is always positive |
| ExpenseFilters.EnterRateGuard | src/components/ExpenseFilters.jsx:91-98 | a manual rate is accepted exactly when it parses to a finite positive number; then it is the rate and only its storage key changes; a rejected entry changes nothing |
| ExpenseFilters.RateStaysPositive | src/components/ExpenseFilters.jsx:91-98 | the rate stays positive through any sequence of manual entries |
| ExpenseFilters.EnteredRateSurvivesReload | src/components/ExpenseFilters.jsx:91-98 | a rate entered by hand is the rate the app starts from after a reload (src/App.jsx:95-102), when its stored text reads back as the same number |
| ExpenseFilters.InitialRateFallback | src/App.jsx:95-102 | nothing stored, or an unusable stored text, starts the app at 13.5 |
| Grouping.InsertCovers | src/App.jsx:160 | after an item is added every item seen so far still has a group |
| Grouping.InsertMembers | src/App.jsx:160-165 | after an item is added each group holds exactly the items seen so far with its key |
| Grouping.HoldsInsert | src/App.jsx:159-165 | one step of a keyed `forEach` keeps the key list, the entries and the key-to-position map in step with the groups |

## Left out

- React rendering, event plumbing, modals, tabs, the login screen and the settings screens are not modelled; each component is modelled by what it shows and exports, as values.
- `toLocaleString` and `String(n)` on numbers are parameters (`localeText`, `numText`): the model does not fix how a number prints, so the CSV read-back lemmas assume the printed numbers need no quoting.
- Amounts are exact reals: floating-point rounding, NaN from non-numeric amount text and infinite amounts are not modelled (a missing amount is `None` and counts as 0).
- `localeCompare` is modelled as code-point order on the lower-cased text (`LexLe`); locale collation and the "base" sensitivity of the expense sort are not modelled.
- Array `sort` is modelled as some sort by the comparison (a permutation, sorted); the stability of JavaScript's sort, which fixes the order of equal keys, is not modelled.
- `Number(text)` for ids is modelled for whole-number text only; fractional or exponent id text is treated as not a number.
- JsValues.ParseFloat reads leading white space, a sign, "Infinity" or digits with at most one decimal point; an exponent is not read, and reals do not overflow or underflow, so "1.35e1" reads as 1.35 (JavaScript: 13.5) and "1e-400" as 1 (JavaScript: 0).
- BwpPerUsd: a rate sent as text with an exponent is read without it (see JsValues.ParseFloat), so such text can be accepted with another value, or where the source rejects it. An array rate is read through its first element: a number element is taken as the number itself, since JavaScript writes a number's text so that it reads back exactly; the text JavaScript writes for it is not modelled.
- EnterRateGuard: its acceptance test is JsValues.ParseFloat's, so an entry with an exponent is accepted with the exponent dropped ("1.35e1" stored as 1.35), and "1e-400", which JavaScript reads as 0 and rejects, is accepted as 1.
- InitialRateFallback: whether the stored text is usable is judged by JsValues.ParseFloat, so stored text with an exponent ("1e-400") gives a start rate of 1 where the source falls back to 13.5; the app writes such text itself when `String(v)` prints a very small or very large rate.
- Text.ToLower and Text.ToUpper map the ASCII letters only, where JavaScript's `toLowerCase` and `toUpperCase` map every letter, sometimes to more than one character ("ß" to "SS"). PHP 8's `strtolower` is ASCII-only, so UploadApi and ReceiptApi are exact.
- CurrencyCode: the currency is upper-cased ASCII-only, so `|code| == |currency|` is a property of the model; JavaScript upper-cases every letter and can lengthen the text ("ß" becomes "SS"). The two agree on ASCII codes such as "usd" and "bwp".
- Resolve: category and supplier names match up to ASCII case only, so a CSV row "CAFÉ" does not find a category "Café" that JavaScript would find, and in local mode a second category is added; and a name such as "constructor", which the source finds among the inherited keys of the plain object `catByName`/`supByName` (keeping that value as the id), is treated as unknown (added in local mode, null otherwise).
- LocalMode.LocalStore.AddExpense: a non-finite amount is stored as 0 where the source stores `Infinity` for infinite input.
- LocalMode.FindNamed, ExpenseList.PaidFor: a missing `user_id` is not compared as JavaScript's text "undefined" (nor a null one as "null"): the model's `addExpense` looks up no user for it, and `getPaidFor` compares the text "null"; the results differ from the source only for a user whose id text is "undefined" or "null".
- `localStorage` and its exceptions, `JSON.parse` of the stored lists, and the `tm_` keys of the local store are not modelled; the store's lists are fields of a class.
- PHP `intval` is modelled on decimal digit text with an optional sign; its 64-bit limits and its handling of other text are not modelled.
- The JSON codec is a parameter for token claims and receipt lists, assumed to decode what it encodes where a lemma needs it; list elements that are not strings are not modelled.
- The database is a sequence of rows: SQL joins, `COALESCE`, the `by_user`, `by_supplier` and `by_category` SQL aggregates, the `audit` SQL query, the 100- and 200-row limits of those modes, PDO `rowCount` details, SQL exceptions (the 500 of a missing schema) and failures of the audit insert are not modelled.
- ExpensesApi.ListExpenses: dates are compared as text, which matches SQL order only for ISO dates.
- ExpensesApi.ExpenseStore.Patch: "not found" is a missing id, where the source uses `rowCount`, which also reports 0 when the stored value does not change.
- `require_auth`, `json_input`, `respond`, `config.php` and `auth_helpers.php` are not part of this model; the caller is a parameter.
- `hash_hmac`, `password_hash`, `password_verify`, `random_bytes`, `time()`, the file system (`is_dir`, `mkdir`, `move_uploaded_file`, `is_file`, `unlink`, `readfile`) and the upload's temporary file are parameters; `hash_equals` is plain equality, so its constant timing is not modelled.
- Auth.VerifySigned: claims are integers, texts or null; an `exp` given as text is refused, where PHP would compare a numeric text with the time; JSON floats and booleans are not modelled.
- Auth.UserByEmail: the email lookup is exact, so the database's case-insensitive collation is not modelled; likewise UsersApi orders names in code-point order.
- UsersApi.UserDirectory.Update: like the source, a PATCH does not check that a new email is free; the model does not add that check.
- `rawurlencode` is modelled through UTF-8 bytes; `basename` and `pathinfo` ignore locale and multibyte handling.
- UploadApi.SafeName: the "file" fallback for a name with no safe character is modelled, but it cannot be reached by an upload with an allowed extension.
- `fetchBwpPerUsd` is modelled on the parsed response; the network call and its exceptions are not.
- `formatRateDate` and the rate's `toFixed` display are not modelled.
- The `formatAmount` prop of `SummaryCard` is not modelled: the app never passes it, so the card always uses `formatAmount` from `src/utils.js`.
- Currency.Symbol, BulkImport.NameIndex: the currency table and the name indexes are looked up as plain maps; keys inherited by JavaScript objects (such as "constructor") are not modelled.
- SummaryCard.DisplayItems: `maxItems` is an integer; fractional values are not modelled.
- AuditLogCard.Prefix: `slice` counts characters, where JavaScript counts UTF-16 code units.
- The audit amount is a number; PDO may return it as text, which `formatAmount` would convert.
- `canDeleteExpense` is a parameter of the expense table.
- The "show removed" checkbox is modelled by ExpenseList.DisplayExpensesSpec only.
- The app's PDF export of the expense list, the API-mode posting of planned import rows with `Promise.allSettled`, and the import status messages are not modelled.
