# NavNirman site logic in Dafny

NavNirman's website is a React brochure and catalog site for a GRC
(glass-fibre reinforced concrete) manufacturer. It also has a password-protected
admin console for site-worker attendance and payroll. Almost all of it is markup.
This project models the parts that compute something and proves what they
guarantee:

- **Payroll aggregation** of the admin console (`payroll.dfy`, module `Payroll`):
  - per-employee earnings, payments and balance;
  - the "Total Due" and "Total Paid" dashboard figures;
  - the monthly detail of one employee;
  - the employee site and search filters, and the distinct-site drop-down lists.
- **Admin console state** (`admin_session.dfy`, module `AdminSession`):
  - the login flag and error message;
  - the three record lists loaded from the back end, with the memoised payroll
    table kept equal to the table of the current lists;
  - the selections of the employee detail view.
- **Spreadsheet data layer** `fetchData` (`sheets.dfy`, module `Sheets`):
  - the normalisation of the requested type and which sheet it reads;
  - the `hero_image` to `image_url` rewrite of project rows;
  - the singular/plural `data_type` filter of master-sheet rows.
- **Project detail page** (`project_detail.dfy`, module `ProjectDetail`):
  - `createSlug`, which turns a project name into its URL segment;
  - the lookup of the project a URL segment names.
- **Universal search** of the navigation bar (`navbar.dfy`, module `Navbar`):
  - the case-insensitive matching, the tagging and the six-result cut;
  - the class `SearchBar`, holding the `query`, `results` and `isSearching`
    state its handlers set.
- **Catalog** category filter and the "No products found" message
  (`catalog.dfy`, module `Catalog`).

Shared pieces:

- `seqs.dfy` (module `Seqs`) holds filter, sum, slice and set-spread
  de-duplication on sequences, with their algebra.
- `text.dfy` (module `Text`) holds `toLowerCase`, `trim` and `includes`.
- `wrappers.dfy` holds `Option`.

## Data representation

Spreadsheet rows, as the CSV parser produces them with header row keys, are
`map<string, string>` (`Sheets.Row`):

- a column the sheet lacks is a missing key (`undefined`);
- a cell is truthy when it is present and not the empty string.

Admin records are typed datatypes:

- `earnings` and `amount` are `Option<int>`. A missing or zero value counts as 0,
  which is `|| 0`.
- The attendance date is already split into its local calendar fields, or is
  `None` for a string that does not parse.

Where the program's labels and its code disagree, the model follows the code:

- **The monthly "Advances Taken" figure.** It adds up every transaction of the
  selected employee. It applies no month filter and no type filter, whatever the
  card suggests. `Payroll.MonthlyAdvanceIsLifetimePaid` proves that it equals the
  employee's lifetime `total_paid`. `Payroll.BonusCountsAsAdvance` works one case
  through: a bonus is counted as an advance.
- **The admin login flag.** It lives only in component state: it is not stored
  anywhere and does not survive a reload.
- **The `'Unassigned'` site option.** It is offered for employees without a site,
  but selecting it keeps only employees whose site is literally `'Unassigned'`.
  This is `Payroll.UnassignedOptionSkipsUnsited`.

## Model

| member | source | states |
|---|---|---|
| Payroll.PayrollStats | src/pages/AdminPortal.jsx:58-78 | one entry per employee, in employee order; each copies the employee's id and name; `total_earnings` is the earnings sum (missing earnings count 0) of the attendance logs whose employee id equals the employee's; `total_paid` is the amount sum of all that employee's transactions of any type; balance is earnings minus paid and may be negative |
| Payroll.EarnedBy | src/pages/AdminPortal.jsx:61-63 | an employee's earnings are 0 when no attendance log carries their id, and the earnings sum of all the logs (missing earnings count 0) when every log does |
| Payroll.PaidTo | src/pages/AdminPortal.jsx:66-68 | an employee's `total_paid` is 0 when no transaction carries their id, and the amount sum of all the transactions, of every type, when every transaction does |
| Payroll.EarnedByInsert | src/pages/AdminPortal.jsx:61-63 | adding one attendance log raises only its own employee's earnings, by exactly its earnings (0 when missing) |
| Payroll.PaidToInsert | src/pages/AdminPortal.jsx:66-68 | adding one transaction raises only its own employee's `total_paid`, by exactly its amount, whatever its type |
| Payroll.UnmatchedLogIgnored | src/pages/AdminPortal.jsx:59-63 | an attendance log whose employee id matches no employee leaves the whole payroll table unchanged |
| Payroll.UnmatchedTransactionIgnored | src/pages/AdminPortal.jsx:59-68 | a transaction whose employee id matches no employee leaves the whole payroll table unchanged |
| Payroll.NoLogsNoPay | src/pages/AdminPortal.jsx:59-76 | an employee with no attendance logs and no transactions gets earnings 0, paid 0 and balance 0 |
| Payroll.ComputeGlobalTotals | src/pages/AdminPortal.jsx:81-82 | one loop with two accumulators computes the sum of all balances (`totalDue`) and the sum of all `total_paid` (`totalPaid`), the two sums of the dashboard |
| Payroll.TotalDueSplits | src/pages/AdminPortal.jsx:75-82 | when every balance is earnings minus paid, `totalDue` is the total of the earnings column minus `totalPaid` |
| Payroll.EarningsPartition | src/pages/AdminPortal.jsx:58-78 | with distinct employee ids, the earnings column adds up to the earnings of exactly the logs that belong to some employee |
| Payroll.PaidPartition | src/pages/AdminPortal.jsx:58-82 | with distinct employee ids, `totalPaid` is the amount of exactly the transactions that belong to some employee |
| Payroll.GlobalTotalsPartition | src/pages/AdminPortal.jsx:58-82 | with distinct employee ids, `totalDue` equals the matched earnings minus `totalPaid`, and `totalPaid` the matched transaction amounts |
| Payroll.EmployeeMonth | src/pages/AdminPortal.jsx:205-222 | no selected employee gives nothing; otherwise the logs are exactly that employee's attendance logs whose month is the chosen one, as an order-preserving subsequence that keeps each such log as often as it occurs, `totalEarned` is their earnings sum and `totalAdvance` is the sum of all the employee's transactions |
| Payroll.NetPayableIsBalanceForOneMonth | src/pages/AdminPortal.jsx:265 | Net Payable (`totalEarned - totalAdvance`) equals the employee's balance in the payroll table when all of the employee's attendance logs fall in the chosen month |
| Payroll.MonthlyAdvanceIsLifetimePaid | src/pages/AdminPortal.jsx:217-219 | the monthly advance figure equals the employee's `total_paid` in the payroll table for every month, so Net Payable is the month's earnings minus everything ever paid |
| Payroll.BonusCountsAsAdvance | src/pages/AdminPortal.jsx:217-219 | for one employee with earnings 500 and 300 in a month, an advance of 200 and a bonus of 100, the payroll row is earnings 800, paid 300, balance 500, and the monthly advance figure is 300 (the bonus included), so Net Payable is 500 |
| Payroll.MonthsPartitionEarnings | src/pages/AdminPortal.jsx:209-214 | the twelve monthly earnings figures of an employee add up to the earnings of their validly dated logs, and to their `total_earnings` when every log has a valid date |
| Payroll.YearIgnored | src/pages/AdminPortal.jsx:209-212 | the month filter ignores the year: moving one log to another year changes no monthly figure |
| Payroll.SiteFilter | src/pages/AdminPortal.jsx:200-202 | `'All'` keeps every employee unchanged; any other site keeps exactly the employees at that site, each as often as before, as an order-preserving subsequence |
| Payroll.FormFilter | src/pages/AdminPortal.jsx:332-339 | the attendance form keeps exactly the site matches whose lower-cased name, or non-empty lower-cased site, contains the lower-cased query, each as often as in the employee list, as a subsequence of the site matches |
| Payroll.EmptySearchKeepsSiteMatches | src/pages/AdminPortal.jsx:333-338 | an empty search box lists exactly the site matches |
| Payroll.DetailSiteOptions | src/pages/AdminPortal.jsx:198 | `'All'` first, then each site label (an empty site reads `'Unassigned'`) exactly once, in order of first appearance among the employees |
| Payroll.FormSiteOptions | src/pages/AdminPortal.jsx:327-330 | the attendance form's site list, with its early return for no employees, is the same list as the detail view's |
| Payroll.UnassignedOptionSkipsUnsited | src/pages/AdminPortal.jsx:198-202 | an employee without a site makes `'Unassigned'` an option, yet filtering by it never lists an employee without a site |
| AdminSession.AdminPortal.constructor | src/pages/AdminPortal.jsx:8-16 | not logged in, no error, no records, and an empty payroll table that matches them |
| AdminSession.AdminPortal.LoginResponse | src/pages/AdminPortal.jsx:29-33 | a success status logs in; any other status sets "Invalid Password"; the records and the payroll table are unchanged |
| AdminSession.AdminPortal.LoginConnectionFailed | src/pages/AdminPortal.jsx:35 | a failed login request sets "Connection Failed" and changes nothing else |
| AdminSession.AdminPortal.DataResponse | src/pages/AdminPortal.jsx:47-52 | a success status replaces all three record lists and the payroll table is again the table of the new lists; any other status changes nothing |
| AdminSession.AdminPortal.Logout | src/pages/AdminPortal.jsx:111 | logging out clears the flag and keeps the loaded records |
| AdminSession.AdminPortal.QuickStats | src/pages/AdminPortal.jsx:119-121 | active staff is the number of employees; total due and total paid are the global totals of the current table, and with distinct ids they are the matched earnings minus matched payments and the matched payments |
| AdminSession.EmployeeDetailView.constructor | src/pages/AdminPortal.jsx:193-195 | the detail view opens with no employee, every site and the current month |
| AdminSession.EmployeeDetailView.SelectEmployee | src/pages/AdminPortal.jsx:238 | choosing an employee changes only the selected employee |
| AdminSession.EmployeeDetailView.SelectSite | src/pages/AdminPortal.jsx:232 | choosing a site changes only the site filter |
| AdminSession.EmployeeDetailView.SelectMonth | src/pages/AdminPortal.jsx:245 | choosing a month changes only the month filter |
| AdminSession.EmployeeDetailView.Listed | src/pages/AdminPortal.jsx:200-202 | the listed employees are the site filter's result for the current site selection: exactly those at the chosen site, or all of them for `'All'` |
| AdminSession.EmployeeDetailView.Stats | src/pages/AdminPortal.jsx:205-222 | the statistics are the monthly detail for the current employee and month selections: none while no employee is selected; otherwise the advance figure is the employee's total paid |
| Text.ToLower | src/components/Navbar.jsx:59 | `toLowerCase` keeps the length and lower-cases each character in place |
| Text.Contains | src/components/Navbar.jsx:63-64 | `includes` holds exactly when the text occurs in the string at some position |
| Text.Trim | src/utils/sheets.js:13 | `trim` returns the slice of the input between its leading and trailing JavaScript white space, and the result has none at either end |
| Sheets.NormaliseType | src/utils/sheets.js:13 | the normalised type is the slice of the lower-cased request between its leading and trailing JavaScript white space; it has no upper-case letter and no white space at either end |
| Sheets.PaddedTypeNormalises | src/utils/sheets.js:13-14 | the request `" Projects\n"` normalises to `'projects'` and reads the project sheet |
| Sheets.NormaliseTypeIdempotent | src/utils/sheets.js:13 | normalising a normalised type changes nothing |
| Sheets.SheetFor | src/utils/sheets.js:14-16 | the project sheet is read exactly for `'project'` and `'projects'`; every other type reads the master sheet |
| Sheets.NormaliseProjectRow | src/utils/sheets.js:30-34 | a non-empty `hero_image` becomes `image_url`; otherwise the row is unchanged; every other column is kept |
| Sheets.NormaliseProjectRows | src/utils/sheets.js:30-34 | the project rows keep their count and order, each rewritten |
| Sheets.FilterMasterRows | src/utils/sheets.js:41-46 | a master row is kept exactly when it has a `data_type` whose normalised form equals the type, or plus `s` equals it, or equals the type plus `s`; the result is an order-preserving subsequence that keeps each such row as often as it occurs |
| Sheets.RowsForType | src/utils/sheets.js:28-46 | a project request yields every project row rewritten, in order; any other request yields the master rows whose type matches, each as often as it occurs, in order |
| Sheets.FetchRows | src/utils/sheets.js:10-46 | when the normalised request is `'project'` or `'projects'` the result is every project row rewritten, in order; otherwise it is exactly the master rows whose normalised `data_type` matches the normalised request, each as often as it occurs, in order |
| Sheets.FetchDependsOnNormalType | src/utils/sheets.js:13-16 | a request fetches exactly what its normalised form fetches |
| ProjectDetail.CreateSlug | src/pages/ProjectDetail.jsx:7-10 | an empty name gives `'untitled-project'`; every slug has only `a-z`, `0-9` and `-`, no two adjacent hyphens and no hyphen at either end; deleting its hyphens gives exactly the letters and digits of the lower-cased name, in order |
| ProjectDetail.CreateSlugJoin | src/pages/ProjectDetail.jsx:8 | two names joined by a run of characters outside `[a-z0-9]` (after lower-casing), with a letter or digit on each side of the run, give the two slugs joined by exactly one hyphen |
| ProjectDetail.CreateSlugIgnoresCase | src/pages/ProjectDetail.jsx:8 | the slug of a name equals the slug of its lower-cased form, so upper-case letters never change where hyphens go |
| ProjectDetail.CreateSlugLeadingRun | src/pages/ProjectDetail.jsx:8 | a run of other characters before a name that starts with a letter or digit leaves no trace in the slug |
| ProjectDetail.CreateSlugTrailingRun | src/pages/ProjectDetail.jsx:8 | a run of other characters after a name that ends with a letter or digit leaves no trace in the slug |
| ProjectDetail.HyphenateRunsShape | src/pages/ProjectDetail.jsx:9 | replacing each run of other characters by one hyphen writes only slug characters and never two hyphens in a row |
| ProjectDetail.HyphenateRunsKeepsAlnums | src/pages/ProjectDetail.jsx:9 | that replacement keeps every letter and digit in order and adds only hyphens |
| ProjectDetail.StripEdgeHyphensShape | src/pages/ProjectDetail.jsx:9 | stripping the edge hyphens leaves a slug-shaped string with the same letters and digits |
| ProjectDetail.SlugFixpoint | src/pages/ProjectDetail.jsx:7-10 | every non-empty slug-shaped string is its own slug |
| ProjectDetail.CreateSlugIdempotent | src/pages/ProjectDetail.jsx:7-10 | `createSlug(createSlug(n)) == createSlug(n)` whenever `createSlug(n)` is not empty |
| ProjectDetail.FindProject | src/pages/ProjectDetail.jsx:23 | the lookup yields nothing ("Project Not Found") exactly when no project with a non-empty name has that slug; otherwise the first such project |
| ProjectDetail.MalformedSlugNotFound | src/pages/ProjectDetail.jsx:23 | a URL segment that is not slug-shaped never finds a project |
| ProjectDetail.LookupSurvivesNormalisation | src/pages/ProjectDetail.jsx:20-23 | the image rewrite of the project sheet never changes which project a slug finds |
| Navbar.Tagged | src/components/Navbar.jsx:65 | a tagged row has the given `type` and `path` and keeps every other field |
| Navbar.MatchingProjects | src/components/Navbar.jsx:62-65 | the matching projects are the filtered projects in order, one tagged row each, `PROJECT` with path `/projects` |
| Navbar.MatchingProducts | src/components/Navbar.jsx:68-71 | the matching products are the filtered products in order, one tagged row each, `PRODUCT` with path `/catalog` |
| Navbar.MatchingProjectsSelect | src/components/Navbar.jsx:62-65 | a project is listed, tagged `PROJECT` and `/projects`, exactly when its non-empty name or location contains the lower-cased text |
| Navbar.MatchingProductsSelect | src/components/Navbar.jsx:68-71 | a product is listed, tagged `PRODUCT` and `/catalog`, exactly when its non-empty name or category contains the lower-cased text |
| Navbar.SearchResults | src/components/Navbar.jsx:74 | at most six results, a prefix of the project matches followed by the product matches, and as long as that list up to six |
| Navbar.SearchLayout | src/components/Navbar.jsx:74 | result `i` is the `i`-th matching project while projects last, and after them the matching products in order |
| Navbar.SearchKinds | src/components/Navbar.jsx:62-74 | every result is a tagged project or product, and a result is a project exactly when it comes before the end of the project matches |
| Navbar.SearchIgnoresCase | src/components/Navbar.jsx:59 | the results for a text and for its lower-cased form are the same |
| Navbar.SearchBar.DropdownShown | src/components/Navbar.jsx:159 | the dropdown is drawn only while searching with results; in a valid state it then shows between one and six results for a non-empty query |
| Navbar.SearchBar.constructor | src/components/Navbar.jsx:8-14 | empty query, no results, dropdown closed, no data |
| Navbar.SearchBar.SetData | src/components/Navbar.jsx:28-34 | storing the loaded rows leaves the query, the results and the dropdown state as they were |
| Navbar.SearchBar.HandleSearch | src/components/Navbar.jsx:53-80 | the text becomes the query; a non-empty text opens the dropdown with the search results, an empty one closes it with no results; the dropdown is drawn exactly when the text is non-empty and has search results |
| Navbar.SearchBar.ClearSearch | src/components/Navbar.jsx:82-86 | the query is empty, the results empty and the dropdown closed and not drawn |
| Navbar.SearchBar.Focus | src/components/Navbar.jsx:142 | focusing the input reopens the dropdown exactly when there is a query, and it is drawn exactly when there is a query with results |
| Navbar.SearchBar.ClickOutside | src/components/Navbar.jsx:43-47 | a press outside the search box closes the dropdown, which is then not drawn, and keeps the query and results |
| Navbar.SearchBar.ResultClick | src/components/Navbar.jsx:88-91 | clicking a result clears the search and opens the result's own path, which is `/projects` or `/catalog` |
| Catalog.FilteredProducts | src/pages/Catalog.jsx:32-34 | `'All'` returns the products unchanged; any other filter keeps exactly the products whose category equals it, case-sensitively, each as often as before, as an order-preserving subsequence |
| Catalog.CatalogGrid | src/pages/Catalog.jsx:60-67 | the grid shows one card per filtered product, or the message naming the filter when there is none |
| Catalog.EmptyMessageIff | src/pages/Catalog.jsx:60-67 | the message appears exactly when no product has the chosen category, or for `'All'` exactly when there are no products |

## Left out

- Network and I/O are not modelled. This covers the login, data and attendance
  requests, the CSV download and parse, and the effects that load data. Each
  handler or function receives the outcome or the parsed rows as parameters.
- The search bar's loading effect falls back to the `catalog` sheet when the
  `products` request yields no rows; that choice sits between two requests and
  is not modelled (`SetData` receives the rows finally stored). The catalog page
  only logs a failed load and keeps its empty list.
- Recording attendance, including the payload merge of the attendance form, is not
  modelled. It only feeds a network request.
- The loading flags and spinners are not modelled. Neither is the password field.
- Date parsing is not modelled. A log's date arrives as its local calendar fields,
  because `new Date(...)` depends on the time zone and the JavaScript date
  library. The current month for the detail view is a constructor parameter.
- Amounts and earnings are integers, not JavaScript floating-point numbers. String
  concatenation from non-numeric cells is not modelled, and ids are assumed to
  arrive as strings, so `String(...)` is the identity.
- `Text.ToLower` lower-cases ASCII letters only. Full Unicode `toLowerCase` is not
  modelled.
- Sheets.NormaliseProjectRow: when neither `hero_image` nor `image_url` is set, the
  source adds an `image_url` key whose value is `undefined`. The model leaves the
  row unchanged, because a missing key and an `undefined` value read the same.
- `createSlug` of a missing name is modelled as the empty name; both are falsy.
- The catalog's category buttons and their fixed list are not modelled; the filter is a parameter.
- Rendering, currency formatting, tab switching and the presentational components
  are not modelled.
