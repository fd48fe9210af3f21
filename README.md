# Music-school admin console: a Dafny model

This project models the logic of a React admin console for a music school.

- **Shared table** (`GenericList`): search, pagination and the page bar.
- **Side navigation**: the submenu accordion and the collapse and drawer flags.
- **Dialogs**:
  - the role-assignment dialog;
  - the create/edit form and the edit-only form, with their validation;
  - the detail view.
- **User and role screens**: their list reducers, with create, edit, delete, status toggle and role or privilege assignment.
- **Payments screen**: totals, the merged entry list, the date sort, grouping by year, and the export rows.
- **Dashboard**: totals, the palette index and the class status by hour.
- **Session provider**: login, logout, profile merge and the storage sync.

JavaScript values are modelled by `Js.Value`: `undefined`, `null`, booleans, integers, strings, arrays and objects. A record is a `map<string, Value>`.

- Reading a missing key gives `Undefined`.
- Truthiness, `||` and object spread (map union) are written out.
- A component whose state changes is a class with that state as fields. Its handlers are methods whose `ensures` give the whole new state.
- The reducers and validators those handlers use are functions. Their properties are proved as lemmas.
- The wall clock, `window.confirm`, the router and browser storage are parameters or fields:
  - `today` and `hour` are parameters;
  - `confirmed` is the confirmation answer;
  - `route` is the last navigation target;
  - `stored` is the record kept under the `user` key.

Modules follow the source files:

| module | source file |
|---|---|
| `GenericList` | `GenericList.jsx` |
| `Navigation` | `Navigation.jsx` |
| `UserRoleAssignment` | `UserRoleAssignment.jsx` |
| `Forms` | validation shared by `FormModal.jsx` and `EditModal.jsx` |
| `FormModal` | `FormModal.jsx` |
| `EditModal` | `EditModal.jsx` |
| `DetailModal` | `DetailModal.jsx` |
| `RecordLists` | list reducers shared by `Usuarios.jsx` and `Roles.jsx` |
| `Usuarios` | `Usuarios.jsx` |
| `Roles` | `Roles.jsx` |
| `Pagos` | `Pagos.jsx` |
| `Dashboard` | `Dashboard.jsx` |
| `AuthContext` | `AuthContext.jsx` |

`Js` and `Seqs` hold the value model and generic sequence lemmas.

Two facts about the shared table are worth stating up front:

- The search box's `onChange` (`GenericList.jsx:135`) sets only the term and keeps the page. `GenericList.ListState.ChangeSearchTerm` models this, and `GenericList.SearchKeepsStalePage` shows the empty page it can leave.
- For every page in range, the page bar the table renders is well formed: it starts at 1, ends at the last page, has increasing labels and exactly one current button, labelled with the page. `GenericList.ManyPagesBar` proves this for more than five pages, and `GenericList.FewPagesBar` for one to five pages, where the bar has one button per page and no "...".

## Model

| member | source | states |
|---|---|---|
| GenericList.FilteredData | src/shared/components/GenericList.jsx:57-63 | an empty term keeps every row; otherwise every kept row has a column whose text contains the term, ignoring case |
| GenericList.FilteredDataExact | src/shared/components/GenericList.jsx:57-63 | a row is kept iff it is in the data and (the term is empty or the row matches); a kept row keeps as many copies as the data has; the result is a subsequence of the data (order kept) |
| Seqs.FilterCount | src/shared/components/GenericList.jsx:57-63 | `filter` keeps every copy of an element that passes and no copy of one that fails |
| GenericList.AbsentTermFiltersAll | src/shared/components/GenericList.jsx:57-63 | a non-empty term that no cell contains leaves no rows |
| GenericList.Paginated | src/shared/components/GenericList.jsx:65-68 | `filteredData.slice(page*rpp, page*rpp + rpp)`; its window is stated by `GenericList.PaginatedWindow` |
| GenericList.TotalPages | src/shared/components/GenericList.jsx:71 | `Math.ceil(n / rpp)` on integers; `GenericList.TotalPagesIsCeiling` proves it is the least covering page count |
| GenericList.PaginatedWindow | src/shared/components/GenericList.jsx:65-68 | the visible rows are exactly rows `page*rpp .. page*rpp+rpp-1` of the filtered rows, clipped to its length |
| GenericList.TotalPagesIsCeiling | src/shared/components/GenericList.jsx:71 | the page count is the least number of `rpp`-row pages covering all rows; it is 0 iff there are no rows |
| GenericList.EveryRowOnAPage | src/shared/components/GenericList.jsx:65-71 | row `i` is on page `i / rpp`, which is in range, at offset `i % rpp` |
| GenericList.PageNumbers | src/shared/components/GenericList.jsx:72-75 | the loop lists exactly the page indices `0 .. totalPages-1` |
| GenericList.PrevDisabled | src/shared/components/GenericList.jsx:375 | the Prev arrow is disabled exactly on page 0; `GenericList.ArrowsStayInRange` states what this guarantees |
| GenericList.NextDisabled | src/shared/components/GenericList.jsx:505 | the Next arrow is disabled from page `totalPages-1` on; `GenericList.ArrowsStayInRange` states what this guarantees |
| GenericList.PageControls | src/shared/components/GenericList.jsx:393-500 | the items of the page bar; `GenericList.FewPagesOneButtonEach`, `GenericList.FewPagesBar`, `GenericList.ManyPagesBar` and the three `Bar…` lemmas state its shape |
| GenericList.ArrowsStayInRange | src/shared/components/GenericList.jsx:375-506 | with one page both arrows are disabled; from a page in range, an enabled arrow leads to a page in range |
| GenericList.FewPagesOneButtonEach | src/shared/components/GenericList.jsx:393-413 | with at most five pages there is one button per page, labelled `i+1`, leading to page `i`, current iff `i == page` |
| GenericList.FewPagesBar | src/shared/components/GenericList.jsx:393-413 | with one to five pages and a page in range, the bar is well formed, has no "...", and its one current button is the page's own, labelled `page + 1` |
| GenericList.ManyPagesBar | src/shared/components/GenericList.jsx:414-500 | with more than five pages the bar starts with 1, ends with the last page, has increasing labels, and has one current button labelled `page+1` |
| GenericList.BarNearStart | src/shared/components/GenericList.jsx:414-500 | the exact bar on the first three pages |
| GenericList.BarInMiddle | src/shared/components/GenericList.jsx:414-500 | the exact bar on a middle page: 1, gap, the page's neighbours, gap, last |
| GenericList.BarNearEnd | src/shared/components/GenericList.jsx:414-500 | the exact bar on the last three pages |
| GenericList.ListState.constructor | src/shared/components/GenericList.jsx:42-44 | page 0, 5 rows per page, empty search term |
| GenericList.ListState.ChangePage | src/shared/components/GenericList.jsx:47-49 | the chosen page becomes the page; nothing else changes |
| GenericList.ListState.ChangeRowsPerPage | src/shared/components/GenericList.jsx:51-54 | a new page size returns to page 0 |
| GenericList.ListState.ChangeSearchTerm | src/shared/components/GenericList.jsx:135 | only the term changes; the page is kept |
| GenericList.ListState.View | src/shared/components/GenericList.jsx:57-75 | one render's rows, page count, page indices and bar, as functions of the state |
| GenericList.SearchKeepsStalePage | src/shared/components/GenericList.jsx:57-68 | a narrower search on a later page can leave that page empty |
| GenericList.FooterAsWritten | src/shared/components/GenericList.jsx:370 | the footer's range as the template computes it; `GenericList.FooterAsWrittenEmptyTable` shows the empty-table defect |
| GenericList.FooterRange | src/shared/components/GenericList.jsx:370 | the corrected range, 0 to 0 when no row is visible; `GenericList.FooterCountsVisibleRows` proves it |
| GenericList.FooterAsWrittenEmptyTable | src/shared/components/GenericList.jsx:370 | on an empty table the footer as written reads "Showing 1 to 0 of 0" |
| GenericList.FooterCountsVisibleRows | src/shared/components/GenericList.jsx:370 | the corrected footer's range covers exactly the visible rows, and is 0 to 0 when none are visible |
| GenericList.HeaderLabels | src/shared/components/GenericList.jsx:224-256 | one caption per column, then "Acciones" iff some row action exists |
| GenericList.CellContent | src/shared/components/GenericList.jsx:293-296 | `render(row[id], row)` when the column has a renderer, else `row[id]`; `GenericList.BodyCells` states the whole body |
| GenericList.BodyCells | src/shared/components/GenericList.jsx:260-296 | one line per visible row and one cell per column; a cell is `render(value, row)` when the column has a renderer, else the raw value |
| Navigation.AllClosed | src/shared/components/Navigation.jsx:82-85 | the same keys, all closed |
| Navigation.CloseAll | src/shared/components/Navigation.jsx:82-85 | the `forEach` builds the same keys, all closed |
| Navigation.ClickExpanded | src/shared/components/Navigation.jsx:72-91 | the accordion update; `Navigation.ClickOpenClosesOnlyIt`, `Navigation.ClickClosedOpensOnlyIt` and `Navigation.ClickKeepsAtMostOneOpen` state it |
| Navigation.ClickOpenClosesOnlyIt | src/shared/components/Navigation.jsx:74-79 | clicking an open submenu closes it and changes no other entry |
| Navigation.ClickClosedOpensOnlyIt | src/shared/components/Navigation.jsx:82-90 | clicking a closed submenu makes it the only open one |
| Navigation.ClickKeepsAtMostOneOpen | src/shared/components/Navigation.jsx:72-91 | a click on an expanded drawer leaves at most one submenu open |
| Navigation.DelayedOpen | src/shared/components/Navigation.jsx:63-68 | the delayed update opens the key and closes nothing else |
| Navigation.CollapsedClickCanOpenTwo | src/shared/components/Navigation.jsx:59-68 | a click on a collapsed drawer can leave two submenus open |
| Navigation.DrawerLayout | src/shared/components/Navigation.jsx:304-312 | width 70 iff collapsed, else 250; a permanent open drawer on desktop; a temporary drawer on mobile, open iff `mobileOpen` |
| Navigation.SubmenuShown | src/shared/components/Navigation.jsx:190-191 | a submenu list is drawn iff the drawer is expanded and the menu is open; `Navigation.SubmenuVisibility` states its consequences |
| Navigation.SubmenuVisibility | src/shared/components/Navigation.jsx:190-191 | a collapsed drawer shows no submenu, whatever `openMenus` holds; an expanded click shows the clicked submenu iff it was closed, and shows no other submenu that was hidden |
| Navigation.NavigationState.constructor | src/shared/components/Navigation.jsx:44-56 | closed, expanded, no open submenu |
| Navigation.NavigationState.DrawerToggle | src/shared/components/Navigation.jsx:48-50 | flips `mobileOpen` only |
| Navigation.NavigationState.ToggleCollapse | src/shared/components/Navigation.jsx:52-54 | flips `isCollapsed` only |
| Navigation.NavigationState.SubmenuClick | src/shared/components/Navigation.jsx:58-92 | collapsed: expand and schedule the delayed open; expanded: apply the accordion update |
| Navigation.NavigationState.TimerFires | src/shared/components/Navigation.jsx:63-68 | the oldest scheduled open runs |
| Navigation.ToggleTwiceRestores | src/shared/components/Navigation.jsx:48-54 | toggling the drawer twice and collapsing twice restores the flags |
| UserRoleAssignment.RoleIds | src/shared/components/UserRoleAssignment.jsx:34 | one id per role, in order; a `null` or `undefined` role makes `role.id` throw a TypeError |
| UserRoleAssignment.ToggleSelection | src/shared/components/UserRoleAssignment.jsx:48-63 | the selection after a checkbox click; `UserRoleAssignment.ToggleOnAppends` and `UserRoleAssignment.ToggleOffRemoves` state it |
| UserRoleAssignment.TogglePrimary | src/shared/components/UserRoleAssignment.jsx:48-63 | the primary after a checkbox click; `UserRoleAssignment.ToggleOnAppends`, `UserRoleAssignment.ToggleOffRemoves`, `UserRoleAssignment.TogglePreservesConsistency` and `UserRoleAssignment.ToggleKeepsPrimarySelected` state it |
| UserRoleAssignment.ToggleOnAppends | src/shared/components/UserRoleAssignment.jsx:56-61 | checking an unselected role appends it once; it becomes primary iff nothing was selected |
| UserRoleAssignment.ToggleOffRemoves | src/shared/components/UserRoleAssignment.jsx:50-55 | unchecking removes the role, keeps the others in order, and clears the primary iff it was that role |
| UserRoleAssignment.TogglePreservesConsistency | src/shared/components/UserRoleAssignment.jsx:48-63 | toggling keeps the dialog's invariant: an empty selection, or a primary that is `''` or selected (the weaker form `Open` also keeps) |
| UserRoleAssignment.ToggleKeepsPrimarySelected | src/shared/components/UserRoleAssignment.jsx:48-63 | from a primary that is `''` or selected, a toggle leaves a primary that is `''` or selected, also when the last role is unchecked |
| UserRoleAssignment.PrimaryOptions | src/shared/components/UserRoleAssignment.jsx:151 | only selected roles are offered as primary |
| UserRoleAssignment.SelectedRolesAreOffered | src/shared/components/UserRoleAssignment.jsx:151 | every selected catalogue role is offered |
| UserRoleAssignment.SaveEnabled | src/shared/components/UserRoleAssignment.jsx:181 | the save button's condition as written; `UserRoleAssignment.SaveEnabledMeans` states what it means |
| UserRoleAssignment.SaveEnabledMeans | src/shared/components/UserRoleAssignment.jsx:181 | save is enabled iff a role is selected and the primary is truthy; then the primary is selected |
| UserRoleAssignment.OpenFromConsistentUser | src/shared/components/UserRoleAssignment.jsx:32-46 | opening a user whose primary is empty or among their roles gives a consistent dialog |
| UserRoleAssignment.NullRoleThrows | src/shared/components/UserRoleAssignment.jsx:33-34 | a `null` role or a string `roles` makes the effect throw; a role without `id` gives an `undefined` id; an empty array does not throw |
| UserRoleAssignment.RoleAssignmentDialog.constructor | src/shared/components/UserRoleAssignment.jsx:29-30 | empty selection, empty primary |
| UserRoleAssignment.RoleAssignmentDialog.Open | src/shared/components/UserRoleAssignment.jsx:32-46 | roles give the selection; the primary is the user's, else the first role, else unchanged; no roles clears both; truthy `roles` that are not an array, or an array with a nullish entry, throw and keep the selection and primary |
| UserRoleAssignment.RoleAssignmentDialog.ToggleRole | src/shared/components/UserRoleAssignment.jsx:48-64 | the toggle functions applied; consistency is preserved |
| UserRoleAssignment.RoleAssignmentDialog.ChangePrimary | src/shared/components/UserRoleAssignment.jsx:66-68 | the chosen role becomes primary |
| UserRoleAssignment.RoleAssignmentDialog.Save | src/shared/components/UserRoleAssignment.jsx:70-77 | emits the user id, selection and primary; a missing user throws |
| Forms.FieldError | src/shared/components/FormModal.jsx:72-87 | a field errs iff it is required and missing, or its validator runs and fails; the validator's message overrides the required message |
| Forms.ErrorKeys | src/shared/components/FormModal.jsx:68-88 | a key has an error iff some field with that id errs |
| Forms.ErrorsOf | src/shared/components/FormModal.jsx:68-88 | `newErrors` after the `forEach`; `Forms.ErrorKeys`, `Forms.ErrorOfField` and `Forms.ValidIffNoErrorEntries` state it |
| Forms.ErrorOfField | src/shared/components/FormModal.jsx:72-87 | with distinct ids, each field's entry is exactly its own error, or absent |
| Forms.RequiredMissingReported | src/shared/components/FormModal.jsx:73-79 | a required field without validator whose value is missing is reported under its id with "<label> es requerido" |
| Forms.ValidIffNoErrorEntries | src/shared/components/FormModal.jsx:68-91 | the form is valid iff the error map is empty |
| Forms.Validate | src/shared/components/FormModal.jsx:68-92 | the loop's error map and `isValid` agree with the fold and with "no field errs" |
| Forms.ClearOnChange | src/shared/components/FormModal.jsx:59-65 | editing a field sets a truthy error to `null` and leaves every other entry |
| FormModal.DefaultOf | src/shared/components/FormModal.jsx:45 | a truthy default, else `""` |
| FormModal.DefaultsOf | src/shared/components/FormModal.jsx:43-47 | `defaultData` after the `forEach`; `FormModal.DefaultsOfEntries` states its keys and values |
| FormModal.DefaultsOfEntries | src/shared/components/FormModal.jsx:43-47 | the default record has one key per field id; with distinct ids, each value is that field's default |
| FormModal.DefaultData | src/shared/components/FormModal.jsx:43-47 | the loop builds the default record |
| FormModal.SectionOf | src/shared/components/FormModal.jsx:244 | the field's section, or "default" when none |
| FormModal.GroupFields | src/shared/components/FormModal.jsx:243-250 | the `reduce` gives one group per section used, holding that section's fields in form order |
| FormModal.GroupStep | src/shared/components/FormModal.jsx:243-250 | pushing one more field onto its section's list keeps every group equal to its section's fields |
| FormModal.NoneInSection | src/shared/components/FormModal.jsx:243-250 | an unused section has no fields |
| FormModal.FieldInExactlyOneGroup | src/shared/components/FormModal.jsx:243-250 | each field is in its own section's group and in no other; groups keep form order |
| FormModal.FormDialog.constructor | src/shared/components/FormModal.jsx:35-36 | empty data and errors |
| FormModal.FormDialog.Open | src/shared/components/FormModal.jsx:38-51 | opening copies the initial data, or else the defaults, and clears the errors; a closed dialog is unchanged |
| FormModal.FormDialog.HandleChange | src/shared/components/FormModal.jsx:53-66 | sets the field and clears only its error |
| FormModal.FormDialog.ValidateForm | src/shared/components/FormModal.jsx:68-92 | replaces the errors with the fold; valid iff no field errs |
| FormModal.FormDialog.HandleSubmit | src/shared/components/FormModal.jsx:94-99 | submits the current data iff it validates |
| FormModal.MissingMeansNullishOrEmpty | src/shared/components/FormModal.jsx:73-79 | a required field without validator errs iff its value is `undefined`, `null` or `""`; `0` and `false` pass |
| EditModal.EditDialog.constructor | src/shared/components/EditModal.jsx:8-9 | empty data and errors |
| EditModal.EditDialog.Open | src/shared/components/EditModal.jsx:11-16 | only an open dialog with data copies it and clears the errors |
| EditModal.EditDialog.HandleChange | src/shared/components/EditModal.jsx:18-32 | sets the field and clears only its error |
| EditModal.EditDialog.ValidateForm | src/shared/components/EditModal.jsx:34-55 | errors are the fold with falsy values missing; valid iff no field errs |
| EditModal.EditDialog.HandleSubmit | src/shared/components/EditModal.jsx:57-61 | confirms the current data iff the error map is empty |
| EditModal.FalsyValuesFailRequired | src/shared/components/EditModal.jsx:39-42 | a required `0`, `false` or `""` fails here; the same `0` or `false` passes the create/edit form |
| EditModal.ValidatorOverridesRequired | src/shared/components/EditModal.jsx:44-50 | a truthy validator message wins; a falsy value skips the validator |
| DetailModal.Capitalize | src/shared/components/DetailModal.jsx:172 | same length; first character upper-cased, the rest unchanged |
| DetailModal.CapitalizeKeepsHyphens | src/shared/components/DetailModal.jsx:172 | capitalising adds or removes no hyphen |
| DetailModal.SplitHyphen | src/shared/components/DetailModal.jsx:172 | one more part than hyphens, and no part contains a hyphen |
| DetailModal.SplitJoinRoundTrip | src/shared/components/DetailModal.jsx:172 | joining the parts with "-" gives the name back |
| DetailModal.CapitalizeAll | src/shared/components/DetailModal.jsx:172 | each part capitalised |
| DetailModal.PermissionLabel | src/shared/components/DetailModal.jsx:172 | one permission's label; `DetailModal.PermissionLabelSeparators`, `DetailModal.NoHyphenIsCapitalized` and `DetailModal.TwoPartNames` state it |
| DetailModal.JoinedHyphens | src/shared/components/DetailModal.jsx:172 | joining hyphen-free parts with " - " puts one hyphen between neighbours |
| DetailModal.PermissionLabelSeparators | src/shared/components/DetailModal.jsx:172 | the label has as many hyphens as the permission name |
| DetailModal.DisplayName | src/shared/components/DetailModal.jsx:7-10 | `displayName` of the uncalled helper; `DetailModal.NoHyphenIsCapitalized` and `DetailModal.TwoPartNames` relate it to the label |
| DetailModal.NoHyphenIsCapitalized | src/shared/components/DetailModal.jsx:7-10 | a name without hyphen is one part, and both formattings just capitalise it |
| DetailModal.TwoPartNames | src/shared/components/DetailModal.jsx:7-10 | "a-b" gives "A - B" in both formattings |
| DetailModal.SplitOfJoin | src/shared/components/DetailModal.jsx:7 | splitting "a-b" gives [a, b] |
| DetailModal.NoHyphenIsSingle | src/shared/components/DetailModal.jsx:7 | a hyphen-free name splits to itself |
| DetailModal.PermissionLabels | src/shared/components/DetailModal.jsx:169-172 | one label per permission iff every entry is a string; otherwise `split` throws |
| DetailModal.PrivilegeNames | src/shared/components/DetailModal.jsx:176-187 | no names for falsy `privileges`; else one `nombre_privilegio` per entry; a truthy non-array or a nullish entry throws |
| DetailModal.FieldDisplay | src/shared/components/DetailModal.jsx:167-205 | for a truthy `viewPermissions`: it succeeds iff the value is an array of strings and (it is empty or the privileges can be read), and then shows one label per permission and the privilege names; otherwise the renderer's output, else the value or "—"; a plain value shown is truthy |
| DetailModal.NullPrivilegeThrows | src/shared/components/DetailModal.jsx:167-187 | a permission with a `null` privilege throws; with no permission the privileges are never read |
| DetailModal.DetailView | src/shared/components/DetailModal.jsx:33-105 | custom content wins; no data renders nothing; otherwise one row per field |
| RecordLists.Ids | src/features/configuracion/pages/Usuarios.jsx:101 | one id per record, in order |
| RecordLists.RemoveById | src/features/configuracion/pages/Usuarios.jsx:66 | no kept record has the id |
| RecordLists.RemoveByIdExact | src/features/configuracion/pages/Usuarios.jsx:66 | deletion keeps exactly the records with another id, every copy of each, in order |
| RecordLists.FilterKeepsIds | src/features/configuracion/pages/Usuarios.jsx:66 | filtering keeps ids unique and numeric |
| RecordLists.MapWhere | src/features/configuracion/pages/Usuarios.jsx:116 | records with the id are updated, all others untouched, length kept |
| RecordLists.MapWhereKeepsIds | src/features/configuracion/pages/Usuarios.jsx:88-99 | an id-preserving update keeps the list's ids, so uniqueness and type |
| RecordLists.MaxId | src/features/configuracion/pages/Usuarios.jsx:101 | the maximum bounds every id and is one of them |
| RecordLists.NextId | src/features/configuracion/pages/Usuarios.jsx:101 | `Math.max(...ids) + 1`; `RecordLists.NextIdIsFresh` proves it is fresh |
| RecordLists.NextIdIsFresh | src/features/configuracion/pages/Usuarios.jsx:101 | `max + 1` exceeds every id, so it is fresh |
| RecordLists.AppendFreshKeepsIds | src/features/configuracion/pages/Usuarios.jsx:101-110 | appending a record with the next id keeps ids unique and numeric |
| RecordLists.ToggleEstado | src/features/configuracion/pages/Usuarios.jsx:116 | the status's truthiness flips; every other field is kept |
| RecordLists.ToggleEstadoTwice | src/features/configuracion/pages/Usuarios.jsx:116 | toggling twice restores the status, as a boolean |
| RecordLists.FromCatalogue | src/features/configuracion/pages/Usuarios.jsx:132 | every chosen entry's id was requested |
| RecordLists.FromCatalogueExact | src/features/configuracion/pages/Usuarios.jsx:132 | exactly the catalogue entries whose id was chosen, every copy of each, in catalogue order |
| RecordLists.Objects | src/features/configuracion/pages/Usuarios.jsx:136 | the records as an array value, one object each |
| Usuarios.EditedUser | src/features/configuracion/pages/Usuarios.jsx:91-96 | the form data, with the old id, roles (or `[]`) and primary role |
| Usuarios.NewUser | src/features/configuracion/pages/Usuarios.jsx:104-109 | the form data with the new id, no roles and a `null` primary |
| Usuarios.WithRoles | src/features/configuracion/pages/Usuarios.jsx:134-138 | roles from the catalogue by chosen id, and the new primary; nothing else changes |
| Usuarios.FindRole | src/features/configuracion/pages/Usuarios.jsx:151 | a found role is in the list and has the primary id |
| Usuarios.FindRoleFirst | src/features/configuracion/pages/Usuarios.jsx:151 | `find` returns the first role with the id |
| Usuarios.FindRoleNone | src/features/configuracion/pages/Usuarios.jsx:151-152 | with no role matching, nothing is found |
| Usuarios.PrimaryRoleLabel | src/features/configuracion/pages/Usuarios.jsx:145-153 | `getPrimaryRoleName` reading the label from a given field; `Usuarios.PrimaryRoleLabelCases` states its three outcomes |
| Usuarios.PrimaryRoleNameAsWritten | src/features/configuracion/pages/Usuarios.jsx:152 | the detail view's primary-role field as written, reading `.name`; `Usuarios.PrimaryRoleNameAsWrittenIsEmpty` shows it blank |
| Usuarios.PrimaryRoleName | src/features/configuracion/pages/Usuarios.jsx:145-153 | the detail view's primary-role field reading `nombre`; `Usuarios.SavedPrimaryIsNamed` states it |
| Usuarios.PrimaryRoleLabelCases | src/features/configuracion/pages/Usuarios.jsx:145-153 | no roles: "No role assigned"; no match: "No primary role"; else the first match's field |
| Usuarios.PrimaryRoleLabelAt | src/features/configuracion/pages/Usuarios.jsx:145-153 | when the first role with the primary id is at `i`, the label is that role's field |
| Usuarios.PrimaryRoleNameAsWrittenIsEmpty | src/features/configuracion/pages/Usuarios.jsx:152 | the primary-role field as written is `undefined` for user 1, so the detail view shows it blank; the corrected one shows "Administrador" |
| Usuarios.SavedPrimaryIsNamed | src/features/configuracion/pages/Usuarios.jsx:124-153 | after a role save with a catalogue primary, the corrected primary-role field shows that role's `nombre` |
| Usuarios.NamedAt | src/features/configuracion/pages/Usuarios.jsx:145-153 | a user whose roles are records, the first with the primary id at `i`, is labelled with that record's `nombre` |
| Usuarios.FirstWithId | src/features/configuracion/pages/Usuarios.jsx:151 | the first position whose record has the id: it has the id and no earlier record does |
| Usuarios.UsuarioFields | src/features/configuracion/pages/Usuarios.jsx:234-239 | the user form's fields; `Usuarios.UsuarioTextField` and `Usuarios.UsuarioFormDefaults` state them |
| Usuarios.UsuarioFormDefaults | src/features/configuracion/pages/Usuarios.jsx:234-239 | a new user's form starts with empty text and `estado` true |
| Usuarios.UsuarioFormRequired | src/features/configuracion/pages/Usuarios.jsx:234-239 | submitting the untouched form reports exactly nombre, tel and correo as required |
| Usuarios.UsuarioFormErrorKeys | src/features/configuracion/pages/Usuarios.jsx:234-239 | only the three text fields can err on the defaults |
| Usuarios.UsuarioFormErrorValues | src/features/configuracion/pages/Usuarios.jsx:234-239 | their messages are "<label> es requerido" |
| Usuarios.UsuarioTextField | src/features/configuracion/pages/Usuarios.jsx:234-239 | nombre, tel and correo are required, have no validator, start empty, and their messages are "<label> es requerido" |
| Usuarios.UsuarioRequiredAt | src/features/configuracion/pages/Usuarios.jsx:234-239 | each text field of the untouched form is reported under its id with its required message |
| Usuarios.InitialUsuariosValid | src/features/configuracion/pages/Usuarios.jsx:21-43 | the initial users have unique numeric ids |
| Usuarios.UsuariosPage.constructor | src/features/configuracion/pages/Usuarios.jsx:14-49 | the initial catalogue and users, nothing selected, dialogs closed |
| Usuarios.UsuariosPage.Create | src/features/configuracion/pages/Usuarios.jsx:51-55 | opens the form for a new user |
| Usuarios.UsuariosPage.Edit | src/features/configuracion/pages/Usuarios.jsx:57-61 | opens the form on the user |
| Usuarios.UsuariosPage.Delete | src/features/configuracion/pages/Usuarios.jsx:63-68 | a confirmed delete removes that id; ids stay unique |
| Usuarios.UsuariosPage.View | src/features/configuracion/pages/Usuarios.jsx:70-73 | selects the user and opens the detail |
| Usuarios.UsuariosPage.CloseDetail | src/features/configuracion/pages/Usuarios.jsx:75-78 | closes the detail and clears the selection |
| Usuarios.UsuariosPage.CloseForm | src/features/configuracion/pages/Usuarios.jsx:80-84 | closes the form, clears selection and edit mode |
| Usuarios.UsuariosPage.Submit | src/features/configuracion/pages/Usuarios.jsx:86-113 | edit maps the selected id; create appends with the next id; editing with no selection throws and changes nothing iff the list is non-empty, and on an empty list closes the form; ids stay unique |
| Usuarios.UsuariosPage.ToggleStatus | src/features/configuracion/pages/Usuarios.jsx:115-117 | toggles the status of that id |
| Usuarios.UsuariosPage.AssignRoles | src/features/configuracion/pages/Usuarios.jsx:119-122 | selects the user and opens the role dialog |
| Usuarios.UsuariosPage.CloseRoleAssignment | src/features/configuracion/pages/Usuarios.jsx:272 | closes the role dialog only |
| Usuarios.UsuariosPage.SaveRoleAssignment | src/features/configuracion/pages/Usuarios.jsx:124-143 | applies the chosen roles and primary to that id |
| Roles.EditedRole | src/features/configuracion/pages/Roles.jsx:113-119 | the form data, with the old id, creation date and privileges (or `[]`) |
| Roles.NewRole | src/features/configuracion/pages/Roles.jsx:125-134 | the form data with the new id, today's date and no privileges |
| Roles.WithPrivileges | src/features/configuracion/pages/Roles.jsx:155-162 | privileges from the catalogue by chosen id; nothing else changes |
| Roles.RoleFields | src/features/configuracion/pages/Roles.jsx:233-252 | the role form's fields; `Roles.RoleFormDefaults` and `Roles.RoleFormRequired` state them |
| Roles.RoleFormDefaults | src/features/configuracion/pages/Roles.jsx:233-252 | a new role's form starts with empty text and `estado` true |
| Roles.RoleFormRequired | src/features/configuracion/pages/Roles.jsx:233-252 | the untouched form reports exactly nombre and descripcion as required |
| Roles.RoleFormErrorKeys | src/features/configuracion/pages/Roles.jsx:233-252 | only the two text fields can err on the defaults |
| Roles.RoleFormErrorValues | src/features/configuracion/pages/Roles.jsx:233-252 | their messages are "<label> es requerido" |
| Roles.InitialRolesValid | src/features/configuracion/pages/Roles.jsx:22-66 | the initial roles have unique numeric ids |
| Roles.RolesPage.constructor | src/features/configuracion/pages/Roles.jsx:14-72 | the initial privileges and roles, nothing selected, dialogs closed |
| Roles.RolesPage.Create | src/features/configuracion/pages/Roles.jsx:74-78 | opens the form for a new role |
| Roles.RolesPage.Edit | src/features/configuracion/pages/Roles.jsx:80-84 | opens the form on the role |
| Roles.RolesPage.Delete | src/features/configuracion/pages/Roles.jsx:86-91 | a confirmed delete removes that id; ids stay unique |
| Roles.RolesPage.View | src/features/configuracion/pages/Roles.jsx:93-96 | selects the role and opens the detail |
| Roles.RolesPage.CloseDetail | src/features/configuracion/pages/Roles.jsx:98-101 | closes the detail and clears the selection |
| Roles.RolesPage.CloseForm | src/features/configuracion/pages/Roles.jsx:103-107 | closes the form, clears selection and edit mode |
| Roles.RolesPage.Submit | src/features/configuracion/pages/Roles.jsx:109-138 | edit maps the selected id; create appends with the next id and today's date; editing with no selection throws and changes nothing iff the list is non-empty, and on an empty list closes the form; ids stay unique |
| Roles.RolesPage.ToggleStatus | src/features/configuracion/pages/Roles.jsx:140-142 | toggles the status of that id |
| Roles.RolesPage.AssignPrivileges | src/features/configuracion/pages/Roles.jsx:144-147 | selects the role and opens the privilege dialog |
| Roles.RolesPage.ClosePrivilegeAssignment | src/features/configuracion/pages/Roles.jsx:285 | closes the privilege dialog only |
| Roles.RolesPage.SavePrivilegeAssignment | src/features/configuracion/pages/Roles.jsx:149-167 | applies the chosen privileges to that id |
| Pagos.DateKeyOrder | src/features/venta-servicios/pages/Pagos.jsx:239-243 | the date key orders dates by year, month, day, and is injective on valid dates |
| Pagos.ValorTotal | src/features/venta-servicios/pages/Pagos.jsx:376-379 | course prices plus the enrolment list's sum, or else the single enrolment, or else 0 |
| Pagos.MatriculasArray | src/features/venta-servicios/pages/Pagos.jsx:213-217 | the list when present; else one entry for a non-zero single enrolment, dated at the first course or today; else none |
| Pagos.AllEntries | src/features/venta-servicios/pages/Pagos.jsx:220-233 | the enrolment entries, then one course entry per course |
| Pagos.TotalValue | src/features/venta-servicios/pages/Pagos.jsx:236 | `totalValue`; `Pagos.TotalValueIsValorTotal` ties it to `valor_total` |
| Pagos.TotalValueIsValorTotal | src/features/venta-servicios/pages/Pagos.jsx:236 | the detail view's total equals the table's `valor_total` |
| Pagos.SortByDateDesc | src/features/venta-servicios/pages/Pagos.jsx:239-243 | the sort leaves the entries newest first, as a permutation |
| Pagos.InsertDesc | src/features/venta-servicios/pages/Pagos.jsx:239-243 | one insertion step extends the sorted prefix and permutes |
| Pagos.SwapKeeps | src/features/venta-servicios/pages/Pagos.jsx:239-243 | swapping the moving entry with an older neighbour moves the insertion invariant one step left and permutes |
| Pagos.InsertDone | src/features/venta-servicios/pages/Pagos.jsx:239-243 | when the moving entry meets one at least as new, or the front, the prefix is sorted newest first |
| Pagos.EntriesByYear | src/features/venta-servicios/pages/Pagos.jsx:245-257 | the accumulator loop computes the grouping fold |
| Pagos.AddToYear | src/features/venta-servicios/pages/Pagos.jsx:245-257 | one `reduce` step; `Pagos.AddToYearWellGrouped` and `Pagos.KeptStaysKept` state it |
| Pagos.ByYear | src/features/venta-servicios/pages/Pagos.jsx:245-257 | `entriesByYear`; `Pagos.ByYearGroups`, `Pagos.ByYearKeepsCourses` and `Pagos.ByYearKeepsFirstMatric` state it |
| Pagos.ByYearGroups | src/features/venta-servicios/pages/Pagos.jsx:245-257 | every group has at most one enrolment and only input entries of its year |
| Pagos.AddToYearWellGrouped | src/features/venta-servicios/pages/Pagos.jsx:245-257 | one grouping step keeps at most one enrolment per year and only entries of that year |
| Pagos.ByYearKeepsCourses | src/features/venta-servicios/pages/Pagos.jsx:245-257 | every course entry is kept in its year's group |
| Pagos.ByYearKeepsFirstMatric | src/features/venta-servicios/pages/Pagos.jsx:249-253 | the first enrolment of each year is kept |
| Pagos.KeptStaysKept | src/features/venta-servicios/pages/Pagos.jsx:245-257 | a later entry never removes an entry already grouped |
| Pagos.MatricCountZero | src/features/venta-servicios/pages/Pagos.jsx:251 | a group has no enrolment iff its enrolment count is 0 |
| Pagos.ExportRows | src/features/venta-servicios/pages/Pagos.jsx:352-358 | the header, then `[cliente, estudiante, debes]` per payment |
| Pagos.SampleTotals | src/features/venta-servicios/pages/Pagos.jsx:11-120 | payment 1 totals 928000; payment 3 totals 955000 with its enrolment dated at its first course |
| Dashboard.Totals | src/features/dashboard/pages/Dashboard.jsx:64-110 | the dropout total is 33 and the income total 91200 |
| Dashboard.JsRem | src/features/dashboard/pages/Dashboard.jsx:153 | JavaScript's remainder: below the divisor in magnitude, the Euclidean one for non-negative ids, never positive for negative ids |
| Dashboard.ColorOf | src/features/dashboard/pages/Dashboard.jsx:153 | a palette colour iff the id is non-negative or a multiple of 5; for ids >= 0 it is entry `id mod 5` |
| Dashboard.ColorCycle | src/features/dashboard/pages/Dashboard.jsx:91 | the palette repeats every five ids, and consecutive ids differ |
| Dashboard.BeforeColon | src/features/dashboard/pages/Dashboard.jsx:409 | the prefix before the first colon |
| Dashboard.LeadingDigits | src/features/dashboard/pages/Dashboard.jsx:409 | the longest prefix of digits of the base |
| Dashboard.CharDigit | src/features/dashboard/pages/Dashboard.jsx:409 | a character's digit value; it is below 10 exactly for `0`-`9` |
| Dashboard.ParsedDigits | src/features/dashboard/pages/Dashboard.jsx:409 | the digits `parseInt` reads after white space, sign and any `0x` prefix are all digits of the base |
| Dashboard.ParseInt | src/features/dashboard/pages/Dashboard.jsx:409 | `NaN` iff no digit of the base follows the white space, sign and `0x` prefix; otherwise the digits' value, negated exactly when the trimmed text starts with `-` |
| Dashboard.LeadingSpaceIgnored | src/features/dashboard/pages/Dashboard.jsx:409 | JavaScript white space before the number does not change what is read |
| Dashboard.HexPrefixRead | src/features/dashboard/pages/Dashboard.jsx:409 | `0x` or `0X` followed by hexadecimal digits reads them in base 16; `0x` alone is `NaN` |
| Dashboard.HexHourStart | src/features/dashboard/pages/Dashboard.jsx:407-416 | a class at `0x9:00` starts at hour 9: complete at 9, pending at 8 |
| Dashboard.StartHour | src/features/dashboard/pages/Dashboard.jsx:409 | `parseInt(hora.split(":")[0])`; `Dashboard.DigitsStartHour` and `Dashboard.PrintedHourRoundTrip` state it |
| Dashboard.ClassStatus | src/features/dashboard/pages/Dashboard.jsx:407-416 | "Completada"/"success" iff the hour has reached the parsed start hour; `NaN` stays "Pendiente"/"primary" |
| Dashboard.StatusMonotone | src/features/dashboard/pages/Dashboard.jsx:409-411 | once complete, complete at every later hour |
| Dashboard.NatToStringDigits | src/features/dashboard/pages/Dashboard.jsx:409 | a printed number is all digits and reads back as itself |
| Dashboard.DigitsStartHour | src/features/dashboard/pages/Dashboard.jsx:409 | a time whose hour is a digit run starts at that number |
| Dashboard.ParseDigits | src/features/dashboard/pages/Dashboard.jsx:409 | a digit string parses to its value |
| Dashboard.PrintedHourRoundTrip | src/features/dashboard/pages/Dashboard.jsx:409 | printing an hour and parsing it gives it back |
| Dashboard.TwoDigitHour | src/features/dashboard/pages/Dashboard.jsx:409 | a time `hh:...`, leading zero allowed, starts at hour `hh` |
| Dashboard.BeforeColonAt | src/features/dashboard/pages/Dashboard.jsx:409 | with the first colon at `n`, the hour part is the first `n` characters |
| Dashboard.NoColonBefore | src/features/dashboard/pages/Dashboard.jsx:409 | before the colon of `digits + ":" + rest` is exactly the digits |
| Dashboard.ClassStarts | src/features/dashboard/pages/Dashboard.jsx:82-89 | today's classes start at 9, 10, 12, 15 and 17 |
| Dashboard.ClassStartAt | src/features/dashboard/pages/Dashboard.jsx:82-89 | the class at position `k` starts at the `k`-th of 9, 10, 12, 15, 17 |
| Dashboard.ClassHourDigits | src/features/dashboard/pages/Dashboard.jsx:82-89 | the class at position `k` is written as two digits and a colon, denoting the `k`-th of 9, 10, 12, 15, 17 |
| Dashboard.NoonStatuses | src/features/dashboard/pages/Dashboard.jsx:407-416 | at noon the first three classes are complete, the last two pending |
| AuthContext.Json | src/features/auth/context/AuthContext.jsx:21 | the stored copy reads the same on every key and holds no `undefined` |
| AuthContext.JsonIdempotent | src/features/auth/context/AuthContext.jsx:50 | storing a stored copy changes nothing |
| AuthContext.FindUser | src/features/auth/context/AuthContext.jsx:16-18 | none iff no user has that email and password; else the first such user |
| AuthContext.Merge | src/features/auth/context/AuthContext.jsx:37-46 | every key of the update overrides; the masked password keeps the old one; falsy permissions and role fall back; throws iff there is no existing record and a fallback is read |
| AuthContext.Fallback | src/features/auth/context/AuthContext.jsx:42-45 | a field of the existing record; with no record the read throws; `AuthContext.Merge` states its use |
| AuthContext.MergeIdempotent | src/features/auth/context/AuthContext.jsx:37-46 | applying the same update twice equals applying it once |
| AuthContext.AbsentPasswordIsCleared | src/features/auth/context/AuthContext.jsx:42 | an update without password leaves an `undefined` password, which is not stored |
| AuthContext.AuthProvider.constructor | src/features/auth/context/AuthContext.jsx:8-12 | the initial user is the stored record, or none |
| AuthContext.AuthProvider.Login | src/features/auth/context/AuthContext.jsx:15-26 | the first match is signed in, stored and sent to the dashboard; else only the alert |
| AuthContext.AuthProvider.Logout | src/features/auth/context/AuthContext.jsx:28-32 | no user, nothing stored, route "/" |
| AuthContext.AuthProvider.UpdateUser | src/features/auth/context/AuthContext.jsx:34-58 | the merged record goes to state and storage and true is returned; a failed merge rethrows and changes nothing; state and storage read alike |
| AuthContext.AuthProvider.Sync | src/features/auth/context/AuthContext.jsx:60-66 | a stored record is loaded iff no user is set |

## Left out

- Rendering, styling, icons, charts, and the loading and 300 ms timers as durations. The delayed submenu open is a separate `TimerFires` step.
- Numbers are integers. Floating point, `NaN` arithmetic and `toLocaleString` formatting are not modelled.
- Case folding is ASCII only.
- Strict equality `===` is structural equality on values, not reference identity on objects.
- Object key order is not modelled: spread is map union.
- `JSON.stringify` round trips drop `undefined` only at the top level of a record.
- `mockUsers.js` is not part of this model. The user list is a constructor parameter of `AuthContext.AuthProvider`.
- Browser alerts other than the login failure, `console.error`, and the spreadsheet file writing are not modelled. `Pagos.ExportRows` gives the sheet's rows.
- Date parsing and time zones are not modelled. Dates are `(year, month, day)` triples, and `getHours()` and `new Date()` are parameters.
- `Pagos.SortByDateDesc`: the model does not state that the sort is stable, which JavaScript's `sort` is.
- `Pagos.ByYear`: the grouping is computed and proved but the source never renders it. The detail table shows the sorted `allEntries`.
- DetailModal's `renderPermissionWithPrivileges` is defined but never called. Only its name formatting (`DetailModal.DisplayName`) is modelled.
- `Usuarios.UsuariosPage.Submit`, `Roles.RolesPage.Submit`: the create path requires a non-empty list. `Math.max()` of no ids is `-Infinity`, which the integer model cannot hold. When the edit path's updater throws, the model keeps the whole state; what React does with the close-form updates queued beside it is not modelled.
- `UserRoleAssignment.RoleAssignmentDialog.ChangePrimary` requires a selected role. The select offers no other value.
- The role-privilege dialog used by the roles screen is not part of this model. Its payload is the `Roles.PrivilegePayload` parameter.
- React batching is not modelled. Updates are sequential, including the `setPrimaryRole` call inside the role dialog's state updater.

## Findings

| source | as written | input that shows it | evidently intended | confidence | as-written member | corrected member |
|---|---|---|---|---|---|---|
| src/shared/components/GenericList.jsx:370 | the footer's first row is `page*rpp + 1` even when there are no rows | an empty table: "Showing 1 to 0 of 0 entries" | "Showing 0 to 0 of 0 entries", a range covering exactly the visible rows | high, not executed | GenericList.FooterAsWrittenEmptyTable | GenericList.FooterCountsVisibleRows |
| src/features/configuracion/pages/Usuarios.jsx:152 | the detail view's primary-role field ("Rol Principal", lines 227-230) reads `primaryRole.name`, but role objects carry `nombre` | user 1 (Juan Pérez, primary role 1): the field is `undefined`, which React renders blank | the primary role's `nombre`, "Administrador" | high, not executed | Usuarios.PrimaryRoleNameAsWrittenIsEmpty | Usuarios.SavedPrimaryIsNamed |
