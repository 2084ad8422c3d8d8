# Reports and path resolution, modelled in Dafny

This project models two self-contained pieces of a research-data management
API.

**The reporting core** (`api/handlers/reporthandler.py`):
- extracting rows from the output of an aggregation call;
- validating the request parameters of the project, access-log and usage reports;
- the handler's dispatch and authorisation decision;
- the project report's base query and demographics grid (the all-zero grid,
  normalising each aggregation row against the grid's keys, and the tally);
- the monthly usage report: merging the per-month rollups into buckets keyed by
  `str(year) + str(month)`, widening the known first and last months, and the
  gap-filling walk from the first month to the last.

**The path resolver** (`api/resolver.py`):
- the `<id:...>` criterion parser;
- the node state machine (root, container, files, analyses, gears);
- the stable by-name ordering of `pop_files`;
- the walk of `Resolver.resolve` with its termination and not-found rules,
  and the children listed for the node the walk stops at.

Everything that touches the database is an input. Aggregation outputs are
values (`Aggregation.AggOutput`). `users.count` and `projects.count` become a
predicate and a project map. Container and gear lookups are the oracle fields
of `Resolver.Store`. `dateutil` parsing, `bson.ObjectId` and
`util.is_user_id` are the oracle fields of `ReportParams.Parsers`.

Modules:

| module | file | what it holds |
|---|---|---|
| `Wrappers` | wrappers.dfy | `Option` and `Result` with `:-` |
| `Decimal` | decimal.dfy | `str(n)` for a non-negative int and `int(s)` for base-10 text |
| `Text` | text.dfy | prefix/suffix tests, ASCII encodability, `str.capitalize`, `<=` on text |
| `Dates` | dates.dfy | timestamps ordered by (year, month, day, time); month indices |
| `Sums` | sums.dfy | sums over a key list, used for the grid totals |
| `Aggregation` | aggregation.dfy | `_get_result_list` and `_get_result` |
| `ReportParams` | params.dfy | the three report constructors |
| `ProjectAccess` | projectaccess.dfy | `user_can_generate` and `_base_query` of the project report |
| `Dispatch` | dispatch.dfy | `ReportHandler.get` |
| `Demographics` | demographics.dfy | `_base_demo_grid` and `_process_demo_results` |
| `Usage` | usage.dfy | `_create_default`, `_build_month_report` and `UsageReport.build` |
| `FileOrder` | fileorder.dfy | a stable sort on a text key |
| `Resolver` | resolver.dfy | the resolver nodes and the walk |

Behaviour of the code that a reader of its comments and docstrings might not
expect, and that the model keeps:
- Project ids are a list, not a set. `user_can_generate` compares a count of
  distinct matching projects with the list's length, so naming a project twice
  always denies (`ProjectAccess.UserCanGenerateAsWrittenIff`, `Dispatch.RepeatedProjectDenied`).
- The docstring of `user_can_generate` asks for admin access on every project,
  but the count lets the user's id and the admin access come from different
  permission entries. The handler in the model uses the count as written
  (`Dispatch.ListedUserGetsProjectReport`); the anchored check is modelled
  beside it (see Findings).
- A usage report of type `project` passes validation and then raises in
  `build` (see Findings).
- The resolver formats and compares text with Python 2's `str`: a non-ASCII
  file name met before the match, or a non-ASCII criterion that finds
  nothing, is an encoding error (a 500) rather than a 404.
- Unlisted values do not all become "Unknown or Not Reported". Membership is
  tested against the grid's keys, and those include the `Total` pseudo-key:
  - A row whose race is the text `Total` is tallied into the `Total` row twice
    (`Demographics.TotalRaceCountedTwice`).
  - A row whose ethnicity is the text `Total` reaches a membership test on an
    int and raises (`Demographics.Normalize`).
- The grid's balance (race totals sum to the grand total; each race row's
  leaves sum to its total) holds for rows that do not name the race `Total`
  (`Demographics.DemographicsGridBalanced`).
- A date parameter given as the empty text is falsy. It is never parsed and
  is stored as `''`. `_base_query` then adds a bound that selects nothing
  (`ProjectAccess.BaseQuerySelectsRange`).

## Model

| member | source | states |
|---|---|---|
| Aggregation.GetResultList | api/handlers/reporthandler.py:79-84 | the rows come back exactly when `ok` holds and `result` is present and non-empty, and they are `result` itself; otherwise the report exception |
| Aggregation.GetResult | api/handlers/reporthandler.py:87-98 | a single row comes back exactly when the list has exactly one element, and it is that element |
| Aggregation.RowsOrEmpty | api/handlers/reporthandler.py:602-605 | when the call reports `ok` with a result, the rows folded in are that result, possibly empty; otherwise none, so a failed call and an empty result look alike to the caller |
| Aggregation.GetResultRefinesList | api/handlers/reporthandler.py:94-96 | a successful single result is the list result of length one |
| ReportParams.GetAll | api/handlers/reporthandler.py:173 | `getall` yields exactly the values paired with the key, each as many times as the request gives it |
| ReportParams.GetAllAppend | api/handlers/reporthandler.py:173 | the values come in request order: a pair added at the end adds its value at the end exactly when its key is the one asked for |
| ReportParams.Get | api/handlers/reporthandler.py:174-175 | `get` is None exactly when no pair has the key; otherwise it is the value of a pair with the key that no later pair with the key follows |
| ReportParams.GetIsLastOfGetAll | api/handlers/reporthandler.py:173-175 | `get` is the last of the values `getall` yields, and None when there are none |
| ReportParams.ReadDate | api/handlers/reporthandler.py:179-182 | an absent date stays absent; `''` is kept and never parsed; other text succeeds exactly when it parses, and a parse failure is not a parameter error |
| ReportParams.ReadDateRange | api/handlers/reporthandler.py:179-184 | the pair is accepted exactly when both dates read and the end is not strictly before the start; each date is as read |
| ReportParams.ReadObjectIds | api/handlers/reporthandler.py:186 | succeeds exactly when every id converts, keeping the count and the order |
| ReportParams.NewProjectReport | api/handlers/reporthandler.py:173-188 | an empty project list is rejected first; a report is built exactly when the list is non-empty, the dates pass and every id converts, and then has one converted id per value, in order, and the checked dates |
| ReportParams.ReadLimit | api/handlers/reporthandler.py:440-455 | absent gives 100; text is accepted exactly when `int()` reads it as at least 1, and is then stored unchanged; every failure is the "greater than 0" error |
| ReportParams.NewAccessLogReport | api/handlers/reporthandler.py:437-460 | a report is built exactly when the dates pass, the user is absent, empty or a valid user id, and the limit passes; it holds those values; with good dates and user, a bad limit is the only error |
| ReportParams.NewUsageReport | api/handlers/reporthandler.py:512-532 | a report is built exactly when the type is "month" or "project" and the dates pass; another type is rejected before any date is read; the mode follows the type; the first/last months are seeded from the parsed dates |
| ReportParams.EndBeforeStartRejected | api/handlers/reporthandler.py:183-184 | two readable dates with the end before the start make all three constructors fail with that error |
| ReportParams.SingleDateAccepted | api/handlers/reporthandler.py:179-184 | a single readable date with the other one absent always passes the date check, so each report accepts it when its other parameters pass |
| ReportParams.PositiveLimitKept | api/handlers/reporthandler.py:450-460 | a limit written as a positive decimal is stored as that number |
| ReportParams.ZeroLimitRejected | api/handlers/reporthandler.py:454-455 | `limit=0` is rejected with the "greater than 0" error |
| ProjectAccess.CountEqualsLengthIff | api/handlers/reporthandler.py:195-199 | the count of matching projects equals the number of ids exactly when the ids are distinct and each names a stored matching project |
| ProjectAccess.UserCanGenerateIff | api/handlers/reporthandler.py:190-200 | with the admin condition anchored to one permission entry, the check holds exactly when the ids are distinct and the user is admin on every project |
| ProjectAccess.UserCanGenerateAsWrittenIff | api/handlers/reporthandler.py:195-200 | as written, the check holds exactly when the ids are distinct and each project lists the user and, in some entry, an admin |
| ProjectAccess.AnchoredImpliesAsWritten | api/handlers/reporthandler.py:195-200 | the anchored check is the stricter: every user it admits passes the check as written |
| ProjectAccess.NonAdminPassesAsWritten | api/handlers/reporthandler.py:195-197 | a read-only user on a project with another admin passes the check as written but not the anchored check |
| ProjectAccess.BaseQuery | api/handlers/reporthandler.py:202-212 | the query names the project, and has a `created` part exactly when some date was given |
| ProjectAccess.BaseQuerySelectsRange | api/handlers/reporthandler.py:202-212 | a session is selected exactly when it belongs to the project and lies in the inclusive date range; an empty-text date selects nothing |
| Dispatch.KindOf | api/handlers/reporthandler.py:778-783 | a report type is known exactly when it is one of the four table keys, and the type found is the one registered under that key |
| Dispatch.KindOfTokenOf | api/handlers/reporthandler.py:778-783 | every report type is found under its own key |
| Dispatch.Construct | api/handlers/reporthandler.py:32-37 | the site report takes no parameters; every other report is the one its constructor builds, and fails exactly when its constructor fails, with the same error |
| Dispatch.HandleGet | api/handlers/reporthandler.py:28-44 | an unknown type is not supported; a parameter exception is a 400 and any other constructor exception propagates unchanged; the report is built exactly when it is constructed and the user is a superuser or admitted by the report's own check (for a project report, the count as written), and otherwise the answer is 403 |
| Dispatch.RootOnlyReports | api/handlers/reporthandler.py:463-469 | a non-superuser who is not root never gets an access-log report built, nor a site or usage report, whose checks are the same |
| Dispatch.RepeatedProjectDenied | api/handlers/reporthandler.py:41-44 | naming a project twice gets any non-superuser a 403 |
| Dispatch.ListedUserGetsProjectReport | api/handlers/reporthandler.py:41-44 | a non-superuser gets a project report built when the named projects are distinct and each lists the user and some admin, whether or not the user is that admin |
| Demographics.RaceNamed | api/handlers/reporthandler.py:287 | the row key found for a text has that text as its name |
| Demographics.RaceNamedComplete | api/handlers/reporthandler.py:287 | no row key is found exactly when no key, the `Total` pseudo-race included, has the text as its name |
| Demographics.EthnicityNamed | api/handlers/reporthandler.py:289 | the ethnicity key found for a text has that text as its name |
| Demographics.EthnicityNamedComplete | api/handlers/reporthandler.py:289 | no ethnicity key is found exactly when no ethnicity has the text as its name |
| Demographics.SexNamed | api/handlers/reporthandler.py:295 | the sex key found for a text has that text as its name |
| Demographics.SexNamedComplete | api/handlers/reporthandler.py:295 | no sex key is found exactly when no sex has the text as its name |
| Demographics.RaceNamedRoundTrip | api/handlers/reporthandler.py:219-227 | each race key is found again under its own name, so the names are distinct |
| Demographics.EthnicityNamedRoundTrip | api/handlers/reporthandler.py:228-232 | each ethnicity key is found again under its name, and no ethnicity is named `Total` |
| Demographics.SexNamedRoundTrip | api/handlers/reporthandler.py:233-237 | each sex key is found again under its name |
| Demographics.BaseRow | api/handlers/reporthandler.py:239-241 | a fresh row has a zero total and zero at every leaf |
| Demographics.BaseGrid | api/handlers/reporthandler.py:214-245 | the fresh grid has every row and leaf present, each leaf and each row total zero |
| Demographics.ReadRecord | api/handlers/reporthandler.py:277-284 | a row is read exactly when count, `_id`, race, ethnicity and sex are all present and the count is an int; otherwise the malformed-aggregation exception |
| Demographics.Normalize | api/handlers/reporthandler.py:286-296 | null or unlisted race and ethnicity become Unknown; sex is capitalised and becomes Unknown when null or unlisted; race `Total` is kept; ethnicity `Total` raises |
| Demographics.NormalRace | api/handlers/reporthandler.py:287-288 | the race key is the named one when the text names a key, else Unknown; it is `Total` exactly for the text `Total` |
| Demographics.NormalEthnicity | api/handlers/reporthandler.py:289-290 | the ethnicity key is the named one when the text names a key, else Unknown |
| Demographics.NormalSex | api/handlers/reporthandler.py:291-296 | the sex key is named by the capitalised text when that names a key, else Unknown |
| Text.Capitalize | api/handlers/reporthandler.py:294 | the first character is upper-cased and every other one lower-cased |
| Text.CapitalizeIdempotent | api/handlers/reporthandler.py:294 | capitalising a capitalised value changes nothing |
| Demographics.AddToTotal | api/handlers/reporthandler.py:300 | only the race's row total moves, by the count |
| Demographics.AddToLeaf | api/handlers/reporthandler.py:301 | only the one leaf moves, by the count |
| Demographics.AddCount | api/handlers/reporthandler.py:299-302 | exactly the race's total, its leaf and the `Total` row's leaf gain the count (the same leaf twice for race `Total`); nothing else changes |
| Demographics.TallyOne | api/handlers/reporthandler.py:276-302 | a row is tallied exactly when it is well formed with an ethnicity other than `Total`, and it yields its count |
| Demographics.TallyOneAdds | api/handlers/reporthandler.py:298-302 | a tallied row changes the grid by AddCount at its normalised position |
| Demographics.ProcessDemoResults | api/handlers/reporthandler.py:267-304 | the tally succeeds exactly when every row is acceptable; the grid keeps its shape and the total is the sum of the counts |
| Demographics.AddCountSums | api/handlers/reporthandler.py:299-302 | for a race other than `Total`, one count moves the sum of race totals and of the `Total` row's leaves by the count, and keeps every race row's leaf sum in step with its total |
| Demographics.ProcessDemoResultsSums | api/handlers/reporthandler.py:276-304 | over rows without race `Total`, the returned total is added to the race-total sum and to the `Total` row's leaf sum, and every race row stays balanced |
| Demographics.DemographicsGridBalanced | api/handlers/reporthandler.py:267-304 | from the fresh grid: race totals and `Total` leaves each sum to the returned total, which is the sum of counts, and every race row's leaves sum to its total |
| Demographics.SingleRowTally | api/handlers/reporthandler.py:276-304 | a one-row result changes the grid exactly as that row's AddCount does |
| Demographics.NullRaceCountedAsUnknown | api/handlers/reporthandler.py:287-288 | a null race is counted under Unknown: that row's total and leaf, and the `Total` row's leaf, each gain the count |
| Demographics.TotalRaceCountedTwice | api/handlers/reporthandler.py:287-302 | a row with race `Total` puts twice its count on the `Total` row's leaf and moves no race's total |
| Decimal.ParseIntOfDecimalString | api/handlers/reporthandler.py:451 | `int(str(n)) == n` |
| Decimal.ParseIntOfNegated | api/handlers/reporthandler.py:451 | `int('-' + str(n)) == -n` |
| Decimal.ParseIntSpaceAfterSign | api/handlers/reporthandler.py:451 | whitespace between the sign and the digits is skipped: `int('+ ' + str(n)) == n` and `int('- ' + str(n)) == -n` |
| Decimal.ParseIntNeedsDigit | api/handlers/reporthandler.py:450-453 | text without a digit never converts |
| Decimal.DecimalStringInjective | api/handlers/reporthandler.py:608-610 | distinct numbers render differently |
| Usage.KeyInjective | api/handlers/reporthandler.py:608-610 | for four-digit years the key `str(year)+str(month)` names one month |
| Usage.KeyCollision | api/handlers/reporthandler.py:608-610 | without the four-digit bound the key is ambiguous: November of year 1 and January of year 11 share it |
| Usage.Earliest | api/handlers/reporthandler.py:581-582 | the first month never moves later, and is either kept or the new date |
| Usage.Latest | api/handlers/reporthandler.py:583-584 | the last month never moves earlier, and is either kept or the new date |
| Usage.CreateDefault | api/handlers/reporthandler.py:565-586 | a zero bucket is filed under the month's key and the known months are widened to take that month in |
| Usage.EnsureBucket | api/handlers/reporthandler.py:613-614 | after the step the key is present, and a present key leaves the state untouched |
| Usage.MergeRowsAtKey | api/handlers/reporthandler.py:607-616 | merging a rollup is, key by key, a fold of that key's rows |
| Usage.FoldGearExecutions | api/handlers/reporthandler.py:607-616 | with four-digit years, a month's bucket ends with the last completed-jobs count for that month, other fields untouched |
| Usage.FoldSessionCount | api/handlers/reporthandler.py:630-639 | with four-digit years, a month's bucket ends with the last session count for that month, other fields untouched |
| Usage.FoldFileMbs | api/handlers/reporthandler.py:662-695 | with four-digit years, a month's bucket gains the sum of that month's megabyte rows, counts untouched |
| Usage.EnsureBucketPlaced | api/handlers/reporthandler.py:578-584 | every bucket stays under its own key and inside the known months, which only widen |
| Usage.MergeRowsPlaced | api/handlers/reporthandler.py:607-616 | merging keeps every bucket placed, files a bucket under every row's key, keeps old keys, and only widens the known months |
| Usage.StorageRows | api/handlers/reporthandler.py:648-695 | every row of every storage rollup is merged |
| Usage.StorageRowsFromRollups | api/handlers/reporthandler.py:648-695 | every storage row merged comes from one of the storage rollups |
| Usage.MergeAllPlaced | api/handlers/reporthandler.py:588-695 | after all rollups every bucket is placed, every row's key is present, and requested bounds are only widened |
| Usage.MonthEntryIsItsMonth | api/handlers/reporthandler.py:705-710 | between the first and last known months, each month's entry, stored bucket or default, carries that month's year and month |
| Usage.FillMonths | api/handlers/reporthandler.py:697-716 | the loop, stepping the month and rolling into January after December, yields `12*(ly-fy) + lm - fm + 1` entries, the t-th being the entry t months after the first |
| Usage.BuildMonthReport | api/handlers/reporthandler.py:588-716 | the report is built exactly when the merge leaves a first and a last month, and is then the walk between them |
| Usage.BuildUsageAsWritten | api/handlers/reporthandler.py:550-563 | a month-mode report is the month report and succeeds exactly when it does; a project-mode report never succeeds |
| Usage.ProjectModeAlwaysRaises | api/handlers/reporthandler.py:560-561 | every project-mode usage report raises the argument-count error, whatever the rollups |
| Usage.BuildUsage | api/handlers/reporthandler.py:719-774 | with the call fixed, a project-mode report is the fixed six-project list, and only a month report can fail, for want of month bounds |
| Usage.BuildUsageCorrectsProjectMode | api/handlers/reporthandler.py:550-563 | the fixed build agrees with the written one on month reports, and answers every project-mode request the written one fails |
| Usage.MonthReportNeedsBounds | api/handlers/reporthandler.py:697-701 | the report raises exactly when a bound was not requested and no rollup returned a row |
| Usage.MergedMonth | api/handlers/reporthandler.py:607-695 | with four-digit years, a month's merged entry holds the last jobs count, the last session count and the summed megabytes for that month |
| Usage.MonthReportEntries | api/handlers/reporthandler.py:697-716 | with four-digit years, the t-th entry is the bucket of the month t months after the first, holding that month's merged values |
| Usage.MonthReportCoversRows | api/handlers/reporthandler.py:578-584 | with four-digit years, every month a rollup reports on lies between the first and last month, so the report lists it |
| Usage.WalkListsBucketOnce | api/handlers/reporthandler.py:705-714 | a bucket filed under its month inside the walked months appears exactly once, at its month's position |
| Usage.MonthReportListsEachBucketOnce | api/handlers/reporthandler.py:697-716 | with four-digit years, every merged bucket appears in the report exactly once |
| Resolver.Idz | tests/integration_tests/python/test_resolver.py:13-14 | wrapping adds exactly the five characters of `<id:` and `>` |
| Resolver.ParseCriterion | api/resolver.py:97-105 | an element read as an id is the id syntax around the criterion; any other element is the criterion itself |
| Resolver.ParseCriterionRoundTrip | tests/integration_tests/python/test_resolver.py:13-14 | parsing a wrapped id gives back `(true, id)` |
| Resolver.ParseCriterionIff | api/resolver.py:101-105 | an element is read as an id exactly when it is some id in the id syntax |
| Resolver.TagAll | api/resolver.py:144 | every document is tagged with the type, nothing else changes, order kept |
| Resolver.PopFiles | api/resolver.py:126-146 | no container gives no files; otherwise the container loses its files, which come back all of them, ordered by name, equal names in stored order, tagged as files |
| FileOrder.SortByKey | api/resolver.py:143 | the result is ordered by key and is a permutation of the input |
| FileOrder.SortByKeyStable | api/resolver.py:143 | elements with equal keys keep their input order |
| FileOrder.SortSortedIsIdentity | api/resolver.py:143 | sorting an already ordered list changes nothing |
| Resolver.FindFile | api/resolver.py:115-118 | the file found is the first with the name, and every name up to it encodes; a name that does not encode, met first, raises; nothing is found exactly when every name encodes and none matches |
| Resolver.FilesStep | api/resolver.py:110-120 | one name is consumed; success exactly when some listed file has the name and every name up to it encodes; a 404 exactly when every name encodes and none matches; the file is appended, tagged as a file, the parent loses its files, and the walk ends |
| Resolver.FilesStepTakesFirstStored | api/resolver.py:115-118 | of several files with the name, the one first in the container's stored list is taken |
| Resolver.CriterionQuery | api/resolver.py:171-181 | the query is by `_id` when the element used the id syntax or the node resolves by id, as an ObjectId when the collection uses them; by `label` otherwise; a malformed ObjectId is a 400 |
| Resolver.ContainerStep | api/resolver.py:164-219 | with a well-formed criterion, the step succeeds exactly when the lookup under the parent finds a document, and appends that document tagged with the singular name; finding nothing is a 404 (an encoding error for non-ASCII text); the next element picks the files node, the analyses node, the child container, or the end |
| Resolver.GearsStep | api/resolver.py:285-298 | one element is consumed; success exactly when the gear lookup by id or by name finds it, and the gear found is appended tagged `gear`; the walk ends; finding nothing is a 404 (an encoding error for non-ASCII text) |
| Resolver.Step | api/resolver.py:373-380 | the root moves on without resolving; every other node consumes at least one element and appends one document; a missing parent is only possible at the analyses node |
| Resolver.Walk | api/resolver.py:371-380 | the walk leaves a suffix of the path and never loses resolved documents |
| Resolver.Children | api/resolver.py:122-124 | the files node lists the parent's files, taken out of it; the gears node lists every gear, tagged `gear`, when nothing is resolved, and nothing under a gear; the analyses node lists an analysis's files, taken out of it, and otherwise the parent's analyses, tagged; only a node listing analyses can lack a parent |
| Resolver.ContainerChildren | api/resolver.py:221-247 | a container lists its child containers, then its analyses when it lists them, then the parent's files, taken out of the parent; only the analyses need a parent |
| Resolver.ChildrenTagged | api/resolver.py:221-247 | every child listed carries its container type |
| Resolver.WalkKeepsTagged | api/resolver.py:371-380 | every document the walk resolves carries its container type |
| Resolver.ResolvedDocsTagged | api/resolver.py:360-392 | every document of a resolution, on the path or among the children, carries its container type |
| Resolver.Resolve | api/resolver.py:360-392 | a non-list is a 400; a success consumed every element and is the listing of the node the walk stopped at; leftover elements are a 404 |
| Resolver.EmptyPathListsGroups | tests/integration_tests/python/test_resolver.py:34-39 | the empty path resolves to no documents and lists every group |
| Resolver.GearsPathListsAllGears | tests/integration_tests/python/test_resolver.py:383-387 | the path `gears` resolves to no documents and lists every gear, tagged `gear` |
| Resolver.SingleGroupResolves | tests/integration_tests/python/test_resolver.py:58-72 | a path of one group resolves to that group, tagged and without its files, listing its projects and then its files |
| Resolver.WalkHasParent | api/resolver.py:317-333 | along the walk, a node that reads its parent always has one |
| Resolver.ResolveNeverLacksParent | api/resolver.py:360-392 | resolution never fails for want of a parent: its errors are the 400, the 404 and the encoding error |
| Resolver.InvalidGroupIdRejected | api/resolver.py:172-177 | a malformed `<id:...>` group id is a 400 before anything is looked up |
| Resolver.InvalidIdRejected | tests/integration_tests/python/test_resolver.py:211-212 | at any container, an id the collection cannot read as an ObjectId is a 400 |
| Resolver.NothingAfterGear | api/resolver.py:292-298 | `gears`, a gear that exists and anything more is a 404; a missing gear gives the lookup's own error |
| Resolver.NothingAfterFile | api/resolver.py:110-120 | after an element, `files` and a file name, any further elements are left unconsumed |
| Resolver.GroupFileThenMoreFails | tests/integration_tests/python/test_resolver.py:369-370 | a group, `files`, a file name and anything more never resolves |

## Left out

- The database: `users.count` is the predicate `Dispatch.Env.isRoot`; `projects.count` is a count over a project map; aggregation outputs are inputs; container, gear and analysis lookups are oracle fields of `Resolver.Store`.
- The server-side semantics of the aggregation pipelines (`$month`, `$year`, `$sum`, `$divide`): each rollup is given as its output rows.
- `SiteReport.build`, `ProjectReport.build` and `AccessLogReport.build`: each is a sequence of database reads. `ProjectReport.build` also drops the admins' own entries from the permission list and skips the demographics when a project has no sessions; those steps only shape database results and are not modelled.
- `_build_project_report` is the fixed list `Usage.PlaceholderProjects`; the `query` built for it is never used.
- Python 2 text: a `None` file name is compared as the text `None` by the source and as the empty text here (`Resolver.NameKey`), and when `pop_files` sorts, Python 2 puts `None` before every text while `Resolver.NameKey` sorts such files together with unnamed and `''`-named ones, in stored order; an encodable byte string is not distinguished from ASCII text; a path list with a non-text element (an `AttributeError`) is not modelled, since `Resolver.PathInput` holds text only.
- The age buckets (`EIGHTEEN_YEARS_IN_SEC`) and the byte-to-megabyte division: floating point, computed inside the pipelines.
- `file_mbs` is an exact real sum; floating-point rounding is not modelled.
- `ok == 1.0` is a flag.
- `dateutil` parsing is an oracle. A naive timestamp compared with a time-zone-aware one (a `TypeError` in the source) is not modelled: all timestamps are comparable.
- The timestamp `_create_default` parses from `year-month-01T00:00.000Z` is taken to be midnight on the first of that month.
- `bson.ObjectId` validity and `util.is_user_id` are predicates.
- Decimal.ParseInt: covers ASCII whitespace around the literal and between the sign and the digits, an optional sign and ASCII digits; other Unicode digits and spaces that Python's `int()` accepts are not modelled.
- Text.Capitalize: ASCII letters only; Python's Unicode case mapping is not modelled.
- Rollup rows whose `_id.month` or `_id.year` is null (a session, file or job with no `created`): `Usage.RollupRow` holds a year and a month only. The source keys such a row `NoneNone` and `_create_default` then parses `None-None-01T00:00.000Z`, which raises.
- The usage buckets' `month` and `year` are ints throughout; the source stores the rollups' values as text in merged buckets and ints in gap-filled ones.
- Non-text race, ethnicity or sex values (where `capitalize` would raise) and counts that `int()` truncates: a field is text or null, and a count is an int or not.
- `filter_deleted_files` and the contents of the projections: the projection choice is passed to the lookup oracle only.
- The sort of `find` and of the listings (`created`, then `_id`): the oracles return documents already in that order.
- `pop_files` on a container whose `files` is null (an `AttributeError`): a document's files are a list or absent.
- Resolver.Step: for the analyses node with nothing resolved, the model reports the missing parent before checking the id syntax; the source checks the id first. The state is unreachable (`Resolver.WalkHasParent`).
- Demographics.ProcessDemoResultsSums and Demographics.DemographicsGridBalanced: stated for rows that do not name the race `Total`, because such a row unbalances the grid (`Demographics.TotalRaceCountedTwice`).
- Usage.MergedMonth, Usage.MonthReportEntries, Usage.MonthReportCoversRows and Usage.MonthReportListsEachBucketOnce: stated for four-digit years, because the month key is ambiguous otherwise (`Usage.KeyCollision`).
- `projectsettings.py`, `jobs/handlers.py`, `epochs.py` and the scripts under `bin/` are not part of this model.

## Findings

| source | as written | input that shows it | evidently intended | confidence | as-written member | corrected member |
|---|---|---|---|---|---|---|
| api/handlers/reporthandler.py:561 | `build` calls `self._build_project_report(query)`, but the method at line 719 takes only `self`, so the call raises `TypeError` | a usage report with `type=project` | the per-project list of `_build_project_report()` | high, not executed | Usage.BuildUsageAsWritten, Usage.ProjectModeAlwaysRaises | Usage.BuildUsage, Usage.BuildUsageCorrectsProjectMode |
| api/handlers/reporthandler.py:195-197 | the count filters on `permissions._id` and `permissions.access` separately, so different permission entries may satisfy them | project permissions `[{_id: reader, access: ro}, {_id: owner, access: admin}]`, uid `reader` | "must be admin on all": one entry with the user's id and admin access (`$elemMatch`) | medium, not executed | ProjectAccess.UserCanGenerateAsWritten, ProjectAccess.NonAdminPassesAsWritten | ProjectAccess.UserCanGenerate, ProjectAccess.UserCanGenerateIff, ProjectAccess.AnchoredImpliesAsWritten |
