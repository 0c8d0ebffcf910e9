# SISCONI front end, modelled in Dafny

SISCONI is a web dashboard for children's vaccination records. Administrators, pediatricians
(PEDIATRA) and representatives of children (REPRESENTANTE) sign in and see different screens.
This project models the client-side logic of those screens as Dafny definitions and proves
properties about them. It covers:

- the session kept by the auth provider: token and user in browser storage, sign-in,
  profile refresh, sign-out and the boot effect;
- the route guard, the navigation bar and the side menu;
- the base URL and authorization header of the HTTP client;
- the shared search and pagination helpers, and the generic data table;
- the list screens of each role: filters, searches, sorts, statistics, the child
  selected on the pediatric screen, the vaccination card, and the person-management
  screen's permission checks and requests.

JavaScript values are the datatype `Js.Json`. An API record is a `map<string, Json>`, where a
missing key reads as `undefined`. Truthiness, `?.`, `??`, `||`, `String(v)`, template
interpolation, `Number(s)` on integer texts, `trim`, `toLowerCase`, `includes`, `split`,
`localeCompare` and `Array.prototype.filter`/`sort` are defined once in `js.dfy`, `text.dfy`
and `seqs.dfy`.

Some code updates state step by step, and that code is imperative Dafny:

- The session (`AuthContext.AuthSession`) is a class, with storage slots and React state as
  fields.
- The data table (`DataTable.DataTableState`) and the request config of the HTTP interceptor
  are classes as well.
- These operations are methods:
  - the sign-in handler `LoginPage.HandleSubmit` and its corrected form `LoginPage.HandleSubmitFixed`;
  - the two sign-in scenarios `LoginPage.StaleUserMisroutes` and `LoginPage.FixedRoutesStoredUser`,
    which drive those handlers on a fresh session;
  - the person save action `Personas.Guardar`;
  - the top bar's link list `Navbar.Links`;
  - the HTTP interceptor `ApiClient.Intercept`.

Everything else is functions and lemmas.

Answers from the network are parameters of the operations: a `HttpResult` response body or
failure, the answer to `window.confirm`, the current date, and the page's hostname and
protocol. Requests are returned rather than sent.

## Model

| member | source | states |
|---|---|---|
| Js.Prop | src/pages/Login.jsx:41 | reading a field of anything that is not an object gives undefined |
| Js.Coalesce | src/pages/ChildHistory.jsx:128 | `a ?? b` is `b` exactly for null/undefined `a`, otherwise `a` |
| Js.Or | src/context/AuthContext.jsx:44 | `a \|\| b` is `a` when truthy and `b` when falsy |
| Js.NumberOfString | src/pages/PediatricDashboard.jsx:171 | `Number(s)` of a blank text is 0 |
| Js.NumberOfIntToString | src/pages/PediatricDashboard.jsx:171 | `Number(String(n)) === n` for every integer: a numeric id written into the form reads back as the same number |
| Js.DigitsValueNatToString | src/pages/PediatricDashboard.jsx:171 | the decimal digits `String(n)` writes have the value `n` |
| Js.NullishToEmpty | src/utils/table.js:5 | `String(v ?? "")` is "" for null/undefined and the text itself for a string |
| Js.FalsyToEmpty | src/pages/ChildNextVaccines.jsx:66 | `String(v \|\| "")` is "" for every falsy value and the text itself for a string |
| Js.FalsyVersusNullish | src/pages/RepresentativeDashboard.jsx:105-106 | `v \|\| ""` and `v ?? ""` differ exactly on `false` and `0` |
| Js.ToStr | src/pages/ChildHistory.jsx:32 | `String(v)` and a template's `${v}`: "undefined", "null", "true"/"false", the decimal digits of a number, the text itself, array elements joined by ",", "[object Object]" |
| Text.TrimStart | src/utils/table.js:2 | the result is a suffix of the input; it starts with a visible character, or is empty exactly when the input is all whitespace |
| Text.TrimEnd | src/utils/table.js:2 | the result is a prefix of the input; it ends with a visible character, or is empty exactly when the input is all whitespace |
| Text.Trim | src/utils/table.js:2 | `trim()` is empty exactly for blank text; otherwise it begins and ends with a visible character |
| Text.TrimIdempotent | src/utils/table.js:2 | trimming twice is trimming once |
| Text.TrimNoSurroundingSpace | src/utils/table.js:2 | a text that begins and ends visibly is its own trim |
| Text.Lower | src/utils/table.js:2 | `toLowerCase()` keeps the length and maps every character on its own |
| Text.UpperOf | src/components/Navbar.jsx:9 | the upper case of one character is "SS" for ß and a single character otherwise |
| Text.Upper | src/components/Navbar.jsx:9 | `toUpperCase()` upper-cases character by character, at most doubling the length; a text without ß keeps its length and maps every character on its own |
| Text.LowerIdempotent | src/utils/table.js:2 | lower-casing twice is lower-casing once |
| Text.LowerAppend | src/pages/RepresentativeDashboard.jsx:97 | lower-casing a template is lower-casing its pieces |
| Text.StartsWith | src/components/AppLayout.jsx:6 | `s.startsWith(p)`: `p` is the first `|p|` characters of `s` |
| Text.Contains | src/utils/table.js:5 | `s.includes(q)`: `q` starts `s` or is included in `s` minus its first character |
| Text.ContainsAt | src/utils/table.js:5 | `includes(q)` holds exactly when `q` occurs at some index |
| Text.ContainsFirst | src/components/DataTable.jsx:20 | a text that includes a non-empty `q` holds `q`'s first character |
| Text.ContainsEmpty | src/utils/table.js:5 | every text includes "" |
| Text.ContainsInAppend | src/pages/RepresentativeDashboard.jsx:97-98 | a text that includes `q` still includes it with anything added on either side |
| Text.ContainsInfix | src/pages/PediatricDashboard.jsx:212-213 | a text includes any part it was built around |
| Text.Split | src/components/Navbar.jsx:5 | `split(sep)` gives at least one piece, and no piece holds the separator |
| Text.JoinSplit | src/components/Navbar.jsx:5 | joining the pieces of `split(sep)` with `sep` gives the text back |
| Text.Join | src/components/Navbar.jsx:5 | `parts.join(sep)`: the pieces with one separator between neighbours, the inverse `JoinSplit` states `split` against |
| Text.SplitAtSeparator | src/components/Navbar.jsx:5 | a separator after a piece without one splits off exactly that piece |
| Text.LexCompare | src/pages/RepresentativeDashboard.jsx:105 | code-point comparison answers -1, 0 or 1 |
| Text.LexZeroIsEqual | src/pages/RepresentativeDashboard.jsx:105 | code-point comparison ties only equal texts |
| Text.CompareReflexive | src/pages/RepresentativeDashboard.jsx:103-106 | `localeCompare` of a text with itself is 0, under both sensitivities |
| Text.CompareAntisymmetric | src/pages/RepresentativeDashboard.jsx:103-106 | swapping the arguments of `localeCompare` negates the answer |
| Text.CompareTransitive | src/pages/RepresentativeDashboard.jsx:103-106 | `localeCompare` order is transitive, so it is a total preorder fit for `sort` |
| Text.VariantTiesOnlyEqual | src/pages/RepresentativeDashboard.jsx:105 | with the default sensitivity only equal texts tie |
| Text.Compare | src/pages/RepresentativeDashboard.jsx:103-106 | `localeCompare`: code-point order of the lower-cased texts; with the default sensitivity a tie is broken with lower case first |
| Seqs.Filter | src/utils/table.js:4-6 | `filter(p)` keeps exactly the members that satisfy `p`, never more copies than the input holds |
| Seqs.FilterIsSubsequence | src/utils/table.js:4-6 | the kept elements stay in their original order |
| Seqs.FilterAllSatisfy | src/utils/table.js:4-6 | every position of the result satisfies the predicate |
| Seqs.FilterKeepsAll | src/utils/table.js:4-6 | a predicate that holds everywhere gives the input back |
| Seqs.FilterIdempotent | src/utils/table.js:4-6 | filtering twice with one predicate is filtering once |
| Seqs.FilterCount | src/utils/table.js:4-6 | `filter(p)` keeps every copy of an element `p` accepts and no copy of the others |
| Seqs.FilterPartition | src/pages/ChildNextVaccines.jsx:54-55 | filtering by a predicate and by its negation splits the list, multiset and length adding up |
| Seqs.ComparatorAntisymmetric | src/pages/RepresentativeDashboard.jsx:102-107 | a sorter compares two items oppositely when they are swapped |
| Seqs.ComparatorTransitive | src/pages/RepresentativeDashboard.jsx:102-107 | a sorter's order is transitive |
| Seqs.Insert | src/pages/RepresentativeDashboard.jsx:109 | an insertion step adds exactly one copy of the element |
| Seqs.SortBy | src/pages/RepresentativeDashboard.jsx:109 | `[...list].sort(cmp)` is a permutation of the list |
| Seqs.InsertSorted | src/pages/RepresentativeDashboard.jsx:109 | inserting into a sorted list keeps it sorted |
| Seqs.SortBySorted | src/pages/RepresentativeDashboard.jsx:109 | the sorted copy is ordered by the comparator |
| Seqs.SortByMembers | src/pages/RepresentativeDashboard.jsx:109 | sorting neither adds nor drops an item |
| Seqs.InsertTies | src/pages/RepresentativeDashboard.jsx:109 | an insertion step adds the element ahead of the ones it ties with and leaves every other tie class as it was |
| Seqs.SortByStable | src/pages/RepresentativeDashboard.jsx:109 | the sort is stable: the items of each tie class keep their input order |
| Table.KeepMatching | src/utils/table.js:4-6 | keeps, in order, exactly the items having some field whose text contains the needle |
| Table.NormalizedQuery | src/utils/table.js:2 | `(query \|\| "").trim().toLowerCase()`, with a null or undefined query read as "" |
| Table.FilterByQuery | src/utils/table.js:1-7 | a missing or blank query returns the items; otherwise exactly the items with a field containing the trimmed, lower-cased query, in order |
| Table.BlankQueryKeepsAll | src/utils/table.js:2-3 | a null, empty or whitespace-only query is no filter |
| Table.FilterByQueryIdempotent | src/utils/table.js:1-7 | filtering the result again with the same query changes nothing |
| Table.FilterByQueryExact | src/utils/table.js:4-6 | an item is kept if and only if one of its fields matches |
| Table.SearchBy | src/pages/PediatricDashboard.jsx:209-214 | the screens' search: a blank query keeps everything; otherwise exactly the items whose lower-cased text contains the query, in order |
| Table.SearchByKeepsAll | src/pages/PediatricDashboard.jsx:209-214 | a query every item matches returns the list unchanged |
| Table.CeilDiv | src/utils/table.js:11 | `Math.ceil(total / pageSize)` is the least `n` with `total <= n * pageSize` |
| Table.PageCount | src/utils/table.js:11 | there is at least one page, and the pages hold the items with the last one non-empty |
| Table.ClampPage | src/utils/table.js:12 | the page is clamped into `1..pages`, unchanged when already inside |
| Table.PageStart | src/utils/table.js:13 | page `p` begins at `(p - 1) * pageSize` |
| Table.PageStartInRange | src/utils/table.js:13 | every existing page of a non-empty list starts inside it |
| Table.SliceClamped | src/utils/table.js:18 | `slice(start, end)` clamps both ends to the length and copies the items in between |
| Table.Paginate | src/utils/table.js:9-20 | the page is clamped, the slice holds at most `pageSize` items taken in order from the page's start, and it is empty only for an empty list |
| Table.PageSliceIsRange | src/utils/table.js:13-18 | a page's slice is the run from its start to the next page's start |
| Table.PagesUpToPrefix | src/utils/table.js:9-20 | pages 1 to `n` together are the prefix of the list up to page `n + 1`'s start |
| Table.AllPagesReproduceItems | src/utils/table.js:9-20 | walking every page shows every item exactly once, in order |
| Table.PaginateEmpty | src/utils/table.js:9-20 | an empty list is page 1 of 1 with nothing on it |
| DataTable.FilterRows | src/components/DataTable.jsx:18-27 | a blank query keeps every row; otherwise exactly the rows having a column whose text contains the lower-cased, untrimmed query |
| DataTable.FilterRowsAgreesWithFilterByQuery | src/components/DataTable.jsx:18-27 | for a query without surrounding whitespace the table filters exactly as `filterByQuery` |
| DataTable.SpacedQueryMissesUnspacedRows | src/components/DataTable.jsx:18-27 | a visible query typed with a leading space finds no row whose searched columns hold no space, because it is not trimmed |
| DataTable.TableMissesSpacedQuery | src/components/DataTable.jsx:20 | the query " b" finds nothing in a row "ab" |
| DataTable.FilterByQueryFindsSpacedQuery | src/utils/table.js:2 | `filterByQuery` trims " b" to "b" and keeps the row "ab" |
| DataTable.PageRows | src/components/DataTable.jsx:31 | an existing page holds at most 8 rows, in order from its start, and is empty only for an empty list |
| DataTable.DataTableState.constructor | src/components/DataTable.jsx:13-16 | the table starts with an empty query on page 1 |
| DataTable.DataTableState.Filtered | src/components/DataTable.jsx:18-27 | the `filtered` memo over the current rows, columns and query, kept in row order |
| DataTable.DataTableState.TotalPages | src/components/DataTable.jsx:29 | at least one page, and the pages hold the filtered rows |
| DataTable.DataTableState.SafePage | src/components/DataTable.jsx:30 | the shown page is the requested one, or the last page when that is beyond the end |
| DataTable.DataTableState.Paged | src/components/DataTable.jsx:31 | the rows shown are at most 8 consecutive filtered rows, and there are none only when nothing matched |
| DataTable.DataTableState.PagedIsPaginate | src/components/DataTable.jsx:29-31 | the rows shown are what `paginate` serves for the requested page |
| DataTable.DataTableState.ShowsNoResults | src/components/DataTable.jsx:65-71 | "Sin resultados" shows exactly when no row matched |
| DataTable.DataTableState.PreviousDisabled | src/components/DataTable.jsx:77 | "Anterior" is disabled exactly on the first page shown |
| DataTable.DataTableState.NextDisabled | src/components/DataTable.jsx:85 | "Siguiente" is disabled exactly on the last page shown |
| DataTable.DataTableState.RecordCount | src/components/DataTable.jsx:45 | the count is all the matching rows, at least the rows on the page and at most all rows |
| DataTable.DataTableState.OnSearchChange | src/components/DataTable.jsx:39-42 | typing stores the text and goes back to page 1; the rows are untouched |
| DataTable.DataTableState.ClickPrevious | src/components/DataTable.jsx:77 | "Anterior" steps back a page, never below 1, and does nothing while disabled |
| DataTable.DataTableState.ClickNext | src/components/DataTable.jsx:83-89 | "Siguiente" steps forward, never past the last page, and does nothing while disabled |
| DataTable.DataTableState.ReceiveProps | src/components/DataTable.jsx:13 | new rows and columns keep the query and the page |
| Children.BySexo | src/pages/RepresentativeDashboard.jsx:92 | "ALL" keeps every child; otherwise exactly the children of that sex, in order |
| Children.ParseIsoDate | src/pages/RepresentativeDashboard.jsx:19 | only a valid calendar date is read from a date text |
| Children.Pad2 | src/pages/RepresentativeDashboard.jsx:19 | a two-digit field writes its number |
| Children.Pad4 | src/pages/RepresentativeDashboard.jsx:19 | a four-digit field writes its number |
| Children.ParseFormat | src/pages/RepresentativeDashboard.jsx:19 | writing a valid date as "YYYY-MM-DD" and reading it back gives the date |
| Children.BirthDateOfIso | src/pages/RepresentativeDashboard.jsx:19 | `new Date(iso + "T00:00:00")` of an ISO date text is that date |
| Children.CalcAgeMonths | src/pages/RepresentativeDashboard.jsx:16-27 | null exactly for a falsy birth date; a month count exactly when the date parses, otherwise the invalid-date result (NaN in the page) |
| Children.MonthsBetween | src/pages/RepresentativeDashboard.jsx:21-22 | the months from the birth month to the current month, one fewer when the current day of the month is before the birth day, before the floor at 0 |
| Children.AgeCountsAnniversaries | src/pages/RepresentativeDashboard.jsx:21-23 | the age in months is the number of monthly anniversaries already reached: the n-th one is reached (or n is 0) and the next one is not |
| Children.FutureBirthIsZero | src/pages/RepresentativeDashboard.jsx:23 | a birth date after today gives 0, never a negative age |
| Children.ExactMonths | src/pages/RepresentativeDashboard.jsx:21-23 | a child born exactly k months ago, same day number, is k months old |
| RepresentativeDashboard.Sorter | src/pages/RepresentativeDashboard.jsx:102-107 | the name sorters compare surname and name at base sensitivity, the birth sorters the date text by default; the `_DESC` ones reverse |
| RepresentativeDashboard.NameKey | src/pages/RepresentativeDashboard.jsx:103-104 | the name sorters' text `${apellidos} ${nombres}` |
| RepresentativeDashboard.BirthKey | src/pages/RepresentativeDashboard.jsx:105-106 | the birth sorters' text `String(fecha_nacimiento \|\| "")` |
| RepresentativeDashboard.Reverse | src/pages/RepresentativeDashboard.jsx:104 | reading a list backwards |
| RepresentativeDashboard.DescendingIsReversedAscending | src/pages/RepresentativeDashboard.jsx:103-106 | a list is in `_DESC` order exactly when its reverse is in `_ASC` order |
| RepresentativeDashboard.Filtered | src/pages/RepresentativeDashboard.jsx:89-110 | exactly the children of the chosen sex whose text contains the query, sorted by the chosen sorter, each as often as in the sex-and-text filter |
| RepresentativeDashboard.SearchText | src/pages/RepresentativeDashboard.jsx:97 | the searched text `${nombres} ${apellidos} ${numero_documento} ${fecha_nacimiento} ${sexo}` before lower-casing |
| RepresentativeDashboard.ClearedShowsAll | src/pages/RepresentativeDashboard.jsx:173 | after "Limpiar filtros" every child is listed, in A-to-Z order |
| RepresentativeDashboard.AgeOf | src/pages/RepresentativeDashboard.jsx:186 | the age column is null exactly for a child without a birth date |
| ChildNextVaccines.ByEstado | src/pages/ChildNextVaccines.jsx:54-55 | "ATRASADA" keeps exactly the overdue items, "AL_DIA" exactly the others, anything else all |
| ChildNextVaccines.IsLate | src/pages/ChildNextVaccines.jsx:54 | an item is overdue exactly when its `estado` is "ATRASADA" |
| ChildNextVaccines.EstadoFiltersPartition | src/pages/ChildNextVaccines.jsx:54-55 | the two status filters split the items with nothing lost or counted twice |
| ChildNextVaccines.ComputeStats | src/pages/ChildNextVaccines.jsx:45-49 | overdue plus on-time is the total, and each count is what its status filter gives |
| ChildNextVaccines.Filtered | src/pages/ChildNextVaccines.jsx:51-67 | exactly the items passing the status and text filters, sorted by recommended date |
| ChildNextVaccines.SearchText | src/pages/ChildNextVaccines.jsx:59 | the searched text `${vaccine_nombre} ${dosis_numero} ${edad_objetivo_meses} ${fecha_recomendada} ${estado}` before lower-casing |
| ChildNextVaccines.DateKey | src/pages/ChildNextVaccines.jsx:66 | the sort text `String(fecha_recomendada \|\| "")` |
| ChildNextVaccines.FilteredIsPermutation | src/pages/ChildNextVaccines.jsx:66 | the sort holds each matching item as often as the filters pass it |
| ChildNextVaccines.MissingDateSortsFirst | src/pages/ChildNextVaccines.jsx:66 | an item without a recommended date sorts before every other item |
| ChildNextVaccines.MissingNameMatchesUndefined | src/pages/ChildNextVaccines.jsx:60 | an item without a vaccine name is found by searching "undefined", which the template writes for it |
| ChildNextVaccines.ClearedShowsAll | src/pages/ChildNextVaccines.jsx:123 | after "Limpiar filtros" every item is listed |
| ChildNextVaccines.BadgeClass | src/pages/ChildNextVaccines.jsx:16-19 | the danger tone exactly for "ATRASADA", success otherwise |
| PediatricDashboard.SelectedId | src/pages/PediatricDashboard.jsx:171 | an empty selection is the id 0 |
| PediatricDashboard.FindById | src/pages/PediatricDashboard.jsx:172 | nothing exactly when no child has that numeric id, otherwise the first child that has it |
| PediatricDashboard.SelectedChild | src/pages/PediatricDashboard.jsx:170-173 | a selection that is not a number selects no child; otherwise the first child with that id |
| PediatricDashboard.SelectingAnIdFindsIt | src/pages/PediatricDashboard.jsx:517-522 | choosing a child in the list selects the first child with its id |
| PediatricDashboard.SelectedChildAge | src/pages/PediatricDashboard.jsx:175-178 | the age is null exactly without a selected child or without its birth date |
| PediatricDashboard.FilteredChildren | src/pages/PediatricDashboard.jsx:187-205 | exactly the children of the chosen sex whose text contains the query, sorted by surname and name, each as often as the filters pass it |
| PediatricDashboard.ChildText | src/pages/PediatricDashboard.jsx:194 | the searched text `${nombres} ${apellidos} ${numero_documento} ${sexo} ${fecha_nacimiento}` before lower-casing |
| PediatricDashboard.NameKey | src/pages/PediatricDashboard.jsx:201-202 | the sort text `${apellidos \|\| ""} ${nombres \|\| ""}` lower-cased |
| PediatricDashboard.FilteredDoses | src/pages/PediatricDashboard.jsx:208-215 | a blank query returns the schedule; otherwise exactly the doses whose text contains it, in order |
| PediatricDashboard.DoseText | src/pages/PediatricDashboard.jsx:212 | the dose text `${vaccine_nombre} dosis ${dosis_numero} ${edad_objetivo_meses} meses ${schedule_id}` before lower-casing |
| PediatricDashboard.DoseTextHasDosis | src/pages/PediatricDashboard.jsx:212 | every dose's search text contains "dosis", whatever its fields |
| PediatricDashboard.DosisMatchesEverything | src/pages/PediatricDashboard.jsx:208-215 | searching "dosis" returns the whole schedule |
| ChildHistory.Items | src/pages/ChildHistory.jsx:45-52 | no data gives no rows; an array is the list; otherwise its `items` array, else its `history` array, else nothing |
| ChildHistory.StoredData | src/pages/ChildHistory.jsx:28 | storing `res.data \|\| null` lists the same items as the response itself |
| ChildHistory.FirstDefined | src/pages/ChildHistory.jsx:128-131 | a `??` chain gives the first field that is neither null nor undefined, or the last value when every field is missing |
| ChildHistory.FmtDate | src/pages/ChildHistory.jsx:6-13 | "—" exactly for a falsy date |
| ChildHistory.Rows | src/pages/ChildHistory.jsx:125-131 | one row per item, row k built from item k; no table when some item is null or undefined |
| ChildHistory.RowOf | src/pages/ChildHistory.jsx:127-131 | row `idx + 1`; the vaccine, dose and note cells are the first present field of their `??` chain or "—", and the date cell is `fmtDate` of the first present date field, else `created_at` |
| ChildHistory.RowsNumberedInOrder | src/pages/ChildHistory.jsx:127 | rows are numbered 1, 2, ... in list order |
| ChildHistory.VaccineCellFallsBack | src/pages/ChildHistory.jsx:128 | the vaccine cell is `vaccine_nombre`, else `vaccine`, else `nombre`, else "—" |
| ChildHistory.FindChild | src/pages/ChildHistory.jsx:32-33 | nothing exactly when no child's id reads as the route's id, otherwise the first child whose id does |
| ChildHistory.NumericAndTextIdsMatch | src/pages/ChildHistory.jsx:32 | a numeric id and the same id as text both match the route's id |
| ChildHistory.HeaderTitle | src/pages/ChildHistory.jsx:61 | without a child the header reads "Niño #" and the route's id |
| ChildHistory.ShowsNoRecords | src/pages/ChildHistory.jsx:134-137 | the "Sin registros aún" row is drawn exactly for an empty list |
| Personas.CanEdit | src/pages/Personas.js:9-12 | editing is for "admin" and "medico" only |
| Personas.FiltrarVisibles | src/pages/Personas.js:53-58 | a medico sees exactly the parents and children, in order; anyone else sees every row |
| Personas.RolesDisponibles | src/pages/Personas.js:163-167 | all four roles for an admin, "padre" and "hijo" for a medico, none for anyone else |
| Personas.CanEditIffSomeRole | src/pages/Personas.js:163-167 | a session may edit exactly when the form offers it some role |
| Personas.MedicoSeesAssignableRoles | src/pages/Personas.js:55 | each row a medico sees has a role the medico may assign |
| Personas.PersonasFiltradas | src/pages/Personas.js:170-180 | a blank search keeps everyone; otherwise exactly the people whose name, surname or document contains it, in order |
| Personas.AbrirEditar | src/pages/Personas.js:82-98 | a medico is refused exactly the people who are not parents or children; otherwise the form is loaded from the person with an empty password |
| Personas.Guardar | src/pages/Personas.js:100-142 | a warning without a role or for a medico choosing a staff role; otherwise a PUT for an edit or a POST for a new person, with the four fields, plus the password exactly when one was typed for a non-"hijo" role |
| Personas.MaySave | src/pages/Personas.js:104-113 | the two guards let the form through: a role is chosen, and a medico chose "padre" or "hijo" |
| Personas.SendsPassword | src/pages/Personas.js:122-125 | the payload carries the password exactly when the role is not "hijo" and one was typed |
| Personas.Eliminar | src/pages/Personas.js:144-161 | nothing unless confirmed; a warning exactly for a medico deleting staff; otherwise DELETE of that person |
| Personas.MedicoTouchesOnlyPatients | src/pages/Personas.js:84 | a medico can open, save or delete only a parent or a child |
| AuthContext.SafeJsonParse | src/context/AuthContext.jsx:9-15 | a missing or corrupt slot reads as null, a stored value as itself |
| AuthContext.UserFrom | src/context/AuthContext.jsx:44 | `r.data?.user \|\| r.data` |
| AuthContext.ProfileOf | src/context/AuthContext.jsx:41-51 | a failed call yields no user, a response the user inside it |
| AuthContext.RefreshedUser | src/context/AuthContext.jsx:40-65 | the first truthy profile of the two endpoints, otherwise null |
| AuthContext.FallbackLoginUser | src/context/AuthContext.jsx:111 | a truthy representative carrying the document number |
| AuthContext.AuthSession.constructor | src/context/AuthContext.jsx:17-19 | a new provider has no user yet and is booting |
| AuthContext.AuthSession.IsAuthenticated | src/context/AuthContext.jsx:131 | signed in exactly when a non-empty token is stored |
| AuthContext.AuthSession.PersistUser | src/context/AuthContext.jsx:23-31 | a falsy user clears slot and state; a truthy one is stored and set; the token is untouched, and slot and state agree afterwards |
| AuthContext.AuthSession.RefreshMe | src/context/AuthContext.jsx:33-66 | without a token the user is cleared and no endpoint is called; otherwise GET /auth/me, then GET /users/me only if the first gave no user, and the first truthy profile is stored and returned |
| AuthContext.AuthSession.Login | src/context/AuthContext.jsx:91-119 | posts the document and password; fails with the server's detail or the fixed messages and changes nothing; on success stores the token and the login's user, else the refreshed profile, else a representative fallback |
| AuthContext.AuthSession.Logout | src/context/AuthContext.jsx:121-125 | token, stored user and user are all cleared |
| AuthContext.AuthSession.Boot | src/context/AuthContext.jsx:68-89 | without a token nothing changes; with one the refreshed profile wins, else the stored user, else a representative; booting ends |
| ProtectedRoute.Decide | src/components/ProtectedRoute.jsx:4-11 | to the login page exactly without a token; home exactly when roles are given, a user is known and that user's role is not among them; otherwise the page |
| ProtectedRoute.NoTokenNoEntry | src/components/ProtectedRoute.jsx:7 | a missing or empty token never reaches the page |
| ProtectedRoute.MoreRolesAdmitMore | src/components/ProtectedRoute.jsx:8 | adding roles to the list never takes the page away |
| ProtectedRoute.EmptyRoleList | src/components/ProtectedRoute.jsx:8 | an empty role list turns away every known user but still lets in a session without one |
| ApiClient.Fallback | src/api/axios.js:14-17 | the production URL exactly on a vercel.app host or over https, the local one otherwise |
| ApiClient.StripTrailingSlash | src/api/axios.js:19 | one trailing "/" is removed; a text without one is unchanged |
| ApiClient.StripsOneSlashOnly | src/api/axios.js:19 | only the last of several trailing slashes is removed |
| ApiClient.BaseUrl | src/api/axios.js:12-19 | a non-empty configured URL wins, minus one trailing slash; otherwise the fallback |
| ApiClient.Intercept | src/api/axios.js:26-30 | with a stored token the request gains `Authorization: Bearer <token>`; without one it is unchanged; the same config is returned |
| Navbar.Words | src/components/Navbar.jsx:5 | the words of a name: non-empty and without spaces |
| Navbar.Initials | src/components/Navbar.jsx:4-10 | "U" for a name without words, else the upper-cased first letter of the first word and of the second if any; one to four characters, and at most two when neither letter is ß |
| Navbar.SharpSInitials | src/components/Navbar.jsx:4-10 | "ß ß" has the initials "SSSS" |
| Navbar.BlankNameInitials | src/components/Navbar.jsx:6 | a blank name has the placeholder "U" |
| Navbar.FullNameInitials | src/components/Navbar.jsx:4-10 | "first last" gives the first letters of both words |
| Navbar.RoleBadgeClass | src/components/Navbar.jsx:12-18 | one class per known role, looked up by the role's text; "text-bg-secondary" for anything else |
| Navbar.RoleBadgeText | src/components/Navbar.jsx:18 | a falsy role shows as "" |
| Navbar.AvatarSource | src/components/Navbar.jsx:94 | the initials come from the names, else the document, else "U" |
| Navbar.Links | src/components/Navbar.jsx:34-43 | each known role gets exactly its own link, any other role none |
| Navbar.IsActive | src/components/Navbar.jsx:45 | an active link is a prefix of the path |
| Navbar.ActiveAtSegmentBoundary | src/components/Navbar.jsx:45 | a path that goes on past the link without a "/" is another page and is not highlighted |
| AppLayout.NavItems | src/components/AppLayout.jsx:48-66 | an admin gets the three panels, a pediatrician and a representative their own one, any other role none |
| AppLayout.NavItemsTargets | src/components/AppLayout.jsx:48-66 | only an admin has more than one entry, and every target is one of the three panels |
| AppLayout.NavbarActiveImpliesItemActive | src/components/AppLayout.jsx:6 | what the top bar highlights the side menu highlights too |
| AppLayout.ItemActive | src/components/AppLayout.jsx:6 | a side-menu item is active when the path starts with its route |
| AppLayout.PrefixWithoutBoundary | src/components/AppLayout.jsx:6 | an item's route followed by anything but "/" is highlighted in the side menu and not in the top bar |
| AppLayout.AdministratorPath | src/components/AppLayout.jsx:6 | the side menu highlights "/admin" on "/administrator", which the top bar does not |
| AppLayout.RoleLabel | src/components/AppLayout.jsx:39 | "—" without a role, else "Rol: " and the role |
| LoginPage.CanSubmit | src/pages/Login.jsx:16-18 | the form may be sent only with at least six document and three password characters |
| LoginPage.SubmitDisabled | src/pages/Login.jsx:183 | the button is disabled when the form may not be sent or a request is in flight |
| LoginPage.BlankPasswordDisables | src/pages/Login.jsx:183 | a blank password, or a request in flight, keeps the button disabled |
| LoginPage.GoByRole | src/pages/Login.jsx:20-24 | "/admin" exactly for ADMIN, "/pediatric" exactly for PEDIATRA, "/representative" for anything else |
| LoginPage.RouteRole | src/pages/Login.jsx:41 | the profile's role, else the fallback user's role, else REPRESENTANTE; never falsy |
| LoginPage.AfterLogin | src/pages/Login.jsx:34-41 | a failed login shows its error or a default message; a successful one navigates by the role |
| LoginPage.HandleSubmit | src/pages/Login.jsx:26-42 | as written: sends the trimmed document; a failure shows the error and leaves token, stored user and user as they were; a success stores the token, keeps slot and user in agreement, holds the refreshed profile when there is one, and routes by its role, else by the user from the render before sign-in; `booting` is never touched |
| LoginPage.LoginAnswer | src/context/AuthContext.jsx:94-101 | the login answer carrying a token and a user, as `login` reads it |
| LoginPage.RepresentativeFallback | src/pages/Login.jsx:41 | a successful login with no profile and no fallback user lands on "/representative" |
| LoginPage.StaleUserMisroutes | src/pages/Login.jsx:26-42 | as written: on a fresh session, any administrator or pediatrician named only in the login answer is stored by the session and still sent to "/representative", not to their own screen |
| LoginPage.HandleSubmitFixed | src/pages/Login.jsx:26-42 | corrected: the same session changes as `HandleSubmit`; a success routes by the refreshed profile, else by the user the login just stored, so an administrator from the login answer lands on "/admin" |
| LoginPage.FixedRoutesStoredUser | src/pages/Login.jsx:26-42 | corrected: the same sign-in, for any user with a role, is stored and sent to that role's screen |

## Left out

- Numbers are integers. Floating point, NaN, `Number()` of hex, exponent or decimal texts, and `peso_kg`/`talla_cm` are not modelled. `Number()` of a non-numeric text is `None`, standing for NaN.
- Case mapping covers the ASCII and Latin-1 letters only, including ß to "SS", µ to Greek capital mu and ÿ to U+0178 when upper-casing. Letters outside Latin-1 keep their case. Strings are sequences of code points, not UTF-16 code units, so `s[0]` of an astral character differs.
- `localeCompare` with the "es" locale is two models. Base sensitivity compares lower-cased code points; default sensitivity breaks ties by code point. Accent folding and the locale's collation tables are not modelled.
- `new Date(...)`: only strict "YYYY-MM-DD" texts with a valid day are read. The lenient forms JavaScript also accepts, time zones and `toLocaleDateString` formatting are not modelled. `fmtDate` only separates "—" from a formatted value.
- `JSON.stringify`/`JSON.parse` of the stored user are taken to round-trip. A slot that does not parse is `Corrupt`.
- Errors thrown by `trim`/`toLowerCase` on a value that is not text, or by reading a field of null or undefined, are not modelled. An example is an initials source that is not text. The one exception is a null or undefined history item, which is modelled as no table.
- Table.Paginate: a page size below 1 is not modelled. With 0 the source divides by zero and `Math.ceil` of Infinity or NaN decides the page count, which integers cannot express.
- Navbar.RoleBadgeClass: the object lookup is modelled on the three own keys only, not on inherited keys such as "constructor".
- HTTP requests, time-outs (`TimeoutMs` is only a constant), React re-rendering, loading flags, toasts and messages, `window.print`, `window.confirm` (an input), icons and page styling are not modelled. The same goes for the `Header`, `EmptyState`, `SexPill` and `Pill` display components.
- The pediatric screen's visit form and its submission (`child_id`, weight, height, vaccine doses applied) are not modelled beyond the selected child; those requests are sent to the back end as typed.
- Personas: `cargarPersonas`, `limpiar` and the modal's show/hide are not modelled. The request is returned; what the server answers is not.
- AuthContext.AuthSession.Boot: the effect's two steps (the first `setUser`, then the awaited refresh) are one method, so the state between them is not visible.
- LoginPage.HandleSubmit: the page stays mounted and `user` is the value from the render in which the form was submitted. Re-renders during the awaits are not modelled.
- DataTable's search does not trim the query before lower-casing it, unlike `filterByQuery`. DataTable.FilterRows models that as the code does, and DataTable.SpacedQueryMissesUnspacedRows shows the effect. It is kept as behaviour, not a finding, because the component may mean to match spaces. The same holds for AppLayout's plain `startsWith`, which highlights "/admin" on "/administrator" (AppLayout.PrefixWithoutBoundary, AppLayout.AdministratorPath).

## Findings

| source | as written | input that shows it | evidently intended | confidence | as-written member | corrected member |
|---|---|---|---|---|---|---|
| src/pages/Login.jsx:41 | the fallback role is read from `user`, captured when the page rendered before sign-in, not from the user `login` just stored | no stored user; login answers `{access_token: "t", user: {rol: "ADMIN"}}`; GET /auth/me and GET /users/me both fail; the page navigates to "/representative" | route by the user the login stored ("/admin" here) | medium, not executed | LoginPage.HandleSubmit, LoginPage.StaleUserMisroutes | LoginPage.HandleSubmitFixed, LoginPage.FixedRoutesStoredUser |
