# Menu/permission pipeline and role screens of an admin front end, in Dafny

This project models the logic at the centre of a React admin application.

- **Menu and permission pipeline** (`src/api/index.js`). The flat list of menu and permission records for the logged-in user is fetched from `/userMenus` once and kept in a one-slot cache (`getMenuData`). Each record gets a canonical `order` field. The list is then projected into:
  - the menu records passed to the tree builder `formatMenus` (`getMenus`);
  - the permission codes (`getPermissions`);
  - the user's starred menus, which come from a second, uncached endpoint (`getCollectedMenus`, `saveCollectedMenu`);
  - the micro-frontend (qiankun) registration list, collected by a depth-first walk of the menu tree (`getSubApps`).
- **Role edit modal** (`src/pages/role/EditModal.jsx`). Covers the role-name uniqueness validator, the choice between update and create on submit, and the form fields the modal changes in place.
- **Role list page** (`src/pages/role/index.jsx`). Covers the query state (`pageNum`, `pageSize`, `conditions`, `record`, `visible`), the `/roles` request parameters, the projection of the reply into table rows, and the handlers that change the state.

Files:

- `js_values.dfy` (module `JsValues`): the JavaScript values involved and how JavaScript treats them. A value can be `undefined`, `null`, a boolean, an integer, a string or an array. A record maps field names to values, and a missing field reads as `undefined`. The module defines truthiness, `||`, and the text a template literal produces. It also holds `Option` and `Reply`: a promise outcome, either resolved with a value or rejected with a reason.
- `lists.dfy` (module `Lists`): `filter` and `map` over sequences. Lemmas show that `filter` keeps order and multiplicity and distributes over concatenation.
- `menu_api.dfy` (module `MenuApi`): the pipeline. The pure projections are functions with lemmas. The `getSubApps` walk is the class `SubAppCollector`, whose recursive `Loop` pushes into a shared `result`, as the source's closure does. The module state (the cache and the log of backend calls) is the class `MenuService`.
- `role_edit_modal.dfy` (module `RoleEditModal`): the validator and the submit branch as functions, and the form as the class `RoleForm`.
- `role_page.dfy` (module `RolePage`): the table projection and the request parameters as functions, and the page state as the class `RoleListPage`.

External collaborators are parameters:

- The tree builder `formatMenus` is a function-valued parameter `seq<Record> -> seq<MenuNode>`.
- Whether the login page is showing (`isLoginPage()`) is a boolean parameter.
- The logged-in user (`getLoginUser()`) is an `Option<Record>` parameter.
- In `MenuApi` and `RolePage`, each reply the backend would give is a `Reply` parameter. `MenuService` and `RoleListPage` keep a `requests` log, and every call they send is appended to it, so "no second fetch" is a statement about that log.
- `RoleEditModal` keeps no log. The `/roleByName` lookup it would send is returned in `NameCheck.lookup`, with the lookup's outcome a `Reply` parameter of `CheckName`. The save request is the first `Effect` of `Submit`, with its outcome a `Reply` parameter. The detail request is the URL `DetailUrl` builds, and `RoleForm.LoadDetail` takes that request's result as an `Option<Record>`, `None` for an empty reply.

Three facts about the code that the model keeps:

- On the login page `getMenus` resolves to `formatMenus([])`. The guard is in `getMenuData`, and `getMenus` still calls `formatMenus` (src/api/index.js:14, 38-48). Only `getCollectedMenus` returns a literal `[]` (line 57). So whether `getSubApps` is empty on the login page depends on `formatMenus([])`. `MenuService.GetMenus` and `MenuService.GetSubApps` state this.
- The order fields are combined with `||` (line 19). Any falsy value, `0` included, falls through to the next field. When all three are falsy, the result is whatever `sort` holds.
- The code has no check for cyclic `parentId` chains, and neither has the model.

## Model

| member | source | states |
|---|---|---|
| `JsValues.NumberTextIsInjective` | src/api/index.js:43-44 | Turning numeric ids into text (`${item.id}`) shows two numbers as the same text only when they are the same number, so the rewrite never merges two numeric ids. |
| `MenuApi.NormalizeOrder` | src/api/index.js:19 | The reconciled record keeps every field except `order`. Its `order` is the value of the chain `order \|\| ord \|\| sort`, stated through the separate reference definition `FirstTruthy`: the first truthy of the three, or `sort` when none is truthy. |
| `MenuApi.OrderPrecedence` | src/api/index.js:19 | A truthy `order` wins. A falsy `order` (`0`, `''`, absent) falls through to a truthy `ord`. When both are falsy, `order` becomes `sort`'s value. |
| `MenuApi.NormalizeReply` | src/api/index.js:18-19 | A resolved reply keeps its length, and each record is reconciled in place. A rejection passes through with the same reason. |
| `MenuApi.StringifyIds` | src/api/index.js:40-46 | `id` and `parentId` are replaced by their template-literal text, and a missing `parentId` becomes `"undefined"`. Every other field is unchanged. |
| `MenuApi.MenuProjectionExact` | src/api/index.js:39-46 | The list given to `formatMenus` is the records with falsy `type` or `type === 1`, in input order, each kept as often as it occurs and rewritten only by `StringifyIds`. |
| `MenuApi.MenuProjectionMembers` | src/api/index.js:39 | A record passes the menu filter exactly when it is in the input and has a falsy or `1` type. Every such record reaches `formatMenus` in its rewritten form. |
| `MenuApi.PartitionIsExclusive` | src/api/index.js:39-87 | No record is both a menu record and a permission record. The menu, permission and ignored records together count exactly the input. |
| `MenuApi.PermissionCodesCount` | src/api/index.js:86-87 | Codes are not de-duplicated: each code occurs in the output exactly as many times as there are `type === 2` records carrying it. |
| `MenuApi.PermissionCodesConcat` | src/api/index.js:86-87 | Codes keep source order: the codes of `a + b` are the codes of `a` followed by those of `b`. |
| `MenuApi.CollectedProjectionExact` | src/api/index.js:63-65 | The collected list is the `type === 1` records, in order and with their multiplicity, each passed through `MarkCollected`. |
| `MenuApi.MarkCollected` | src/api/index.js:65 | The tag sets `isCollectedMenu` to `true` and leaves every other field unchanged. |
| `MenuApi.CollectedMenusAreTaggedMenus` | src/api/index.js:63-65 | Every collected menu has `isCollectedMenu === true` and `type === 1`. |
| `MenuApi.CollectedFilterIsStricter` | src/api/index.js:63-65 | Applying the collected filter to the records `getMenus` would keep gives the same records as applying it to the whole list. Every collected menu is therefore also a menu record. |
| `MenuApi.AbsentTypeSplitsTheFilters` | src/api/index.js:64 | A record with no `type` reaches the menu tree but is dropped from the collected menus. |
| `MenuApi.SmallListLoaded` | src/api/index.js:19 | On a concrete three-record list, a record with only `ord` gets `order` from it, and one with `order` keeps it. |
| `MenuApi.SmallListPermissions` | src/api/index.js:86-87 | On that list, the permission child yields the single code `"user:read"`. |
| `MenuApi.SmallListMenus` | src/api/index.js:39-46 | On that list, exactly the two menus reach `formatMenus`, in order, with ids `"1"` and `"2"` and `parentId` values `"undefined"` and `"1"`. |
| `MenuApi.SaveCollectedRequest` | src/api/index.js:76-78 | The body posted to `/userCollectMenus` has exactly the fields `userId`, `menuId` and `collected`, with the caller's `menuId` and `collected` unchanged. |
| `MenuApi.SubAppsStep` | src/api/index.js:98-109 | The registrations of the first `i+1` roots are those of the first `i`, then the `i`-th root's own entry if it is a qiankun node, then those of its subtree. This is the pre-order the walk follows. |
| `MenuApi.PreOrderVisitsChildren` | src/api/index.js:108 | The children of every visited node are visited too, whether or not that node qualifies. |
| `MenuApi.SubAppsMembers` | src/api/index.js:98-107 | Every qiankun node at any depth contributes its `{title, name, entry}`. A node passes the qualifying filter exactly when it is in the tree and has `_target === 'qiankun'`. |
| `MenuApi.SubAppsExact` | src/api/index.js:94-113 | There is one registration per qiankun node, in pre-order, holding that node's `{title, name, entry}`. An empty tree yields none. |
| `MenuApi.SubAppCollector.Loop` | src/api/index.js:98-109 | Walking a forest appends exactly the forest's registrations to the shared `result`. |
| `MenuApi.CollectSubApps` | src/api/index.js:96-112 | The walk started on an empty `result` returns exactly the registrations of the tree. |
| `MenuApi.MenuService.GetMenuData` | src/api/index.js:12-19 | On the login page: `[]`, and the cache and the log are untouched. With a stored outcome: that outcome, and no request. Otherwise: one `/userMenus` request with the user's id, and the reconciled outcome (a rejection included) stored and returned. Keeps the invariant that the log holds one `/userMenus` fetch once the slot is filled and none before. |
| `MenuApi.MenuService.GetMenus` | src/api/index.js:34-49 | Resolves to `formatMenus` of the menu projection of what `getMenuData` yields, or passes its rejection on. On the first call off the login page it sends the one `/userMenus` fetch and stores the reconciled reply, which later calls then see. |
| `MenuApi.MenuService.GetPermissions` | src/api/index.js:84-88 | Resolves to the permission codes of what `getMenuData` yields, or passes its rejection on. On the first call off the login page it sends the one `/userMenus` fetch and stores the reconciled reply, which later calls then see. |
| `MenuApi.MenuService.GetSubApps` | src/api/index.js:94-113 | Resolves to the registrations of the tree `getMenus` yields, or passes its rejection on. On the first call off the login page it sends the one `/userMenus` fetch and stores the reconciled reply, which later calls then see. |
| `MenuApi.MenuService.GetCollectedMenus` | src/api/index.js:55-68 | On the login page: `[]` and no request. Otherwise: one uncached `/userCollectMenus` request and `formatMenus` of the collected projection, or the rejection. The cache is never touched. |
| `MenuApi.MenuService.SaveCollectedMenu` | src/api/index.js:76-78 | Sends exactly the request `SaveCollectedRequest` and resolves or rejects as the backend does. The cache is untouched. |
| `MenuApi.MenuDataIsFetchedOnce` | src/api/index.js:17-19 | Two calls outside the login page, with possibly different users and backend replies, both get the first fetch's outcome (a failure stays cached as the failure), and one fetch is sent. |
| `MenuApi.OperationsShareFirstFetch` | src/api/index.js:17-19 | A `getMenus` followed by a `getPermissions` with another backend reply: the codes come from the list of the first fetch, or both calls pass on its rejection, and one fetch is sent. |
| `MenuApi.LoginPageBypassesCache` | src/api/index.js:14-19 | A login-page call resolves to `[]` before and after the slot is filled and sends nothing. The first call off the login page still fetches. |
| `RoleEditModal.CheckName` | src/pages/role/EditModal.jsx:54-64 | An empty name passes without a lookup. Otherwise one lookup is sent with `{name, systemId}`. No role found passes; a found role with a different name passes in either mode. In create mode the same name is a duplicate. In edit mode the same name is a duplicate exactly when the role's id differs from the form's `id`, and it passes otherwise. A failed lookup fails the validation, and a lookup that resolved never does. |
| `RoleEditModal.EditModeIsNoStricter` | src/pages/role/EditModal.jsx:61-63 | With the same lookup outcome, every name create mode accepts is also accepted in edit mode, and both modes send the same lookup. |
| `RoleEditModal.Submit` | src/pages/role/EditModal.jsx:40-52 | One save request carrying the form values: update exactly when `isEdit` is true, create otherwise. Then `onOk`, at most once and only after the request resolved. |
| `RoleEditModal.DetailUrlIdentifiesRole` | src/pages/role/EditModal.jsx:23-25 | In edit mode, two records with numeric ids fetch the same `/roles/${record?.id}` detail URL exactly when their ids are equal, so the detail fetched is that of the edited role. |
| `RoleEditModal.RoleForm.SetFieldsValue` | src/pages/role/EditModal.jsx:31 | The given fields take the given values; the others keep theirs. |
| `RoleEditModal.RoleForm.LoadDetail` | src/pages/role/EditModal.jsx:26-32 | An empty detail reply leaves the form alone; a role fills the form with its fields. |
| `RoleEditModal.RoleForm.OnSystemIdChange` | src/pages/role/EditModal.jsx:98-100 | Choosing a system stores it and sets `menuIds` to the empty list. Every other field is unchanged. |
| `RoleEditModal.SystemChangeScenario` | src/pages/role/EditModal.jsx:98-100 | After a system change no menu stays selected, and the next name lookup is sent in the new system. |
| `RolePage.FormatResult` | src/pages/role/index.jsx:44-49 | Every row is a custom role (`type === 3`). A missing list gives no rows. The total is the reply's `total` when truthy and `0` otherwise. |
| `RolePage.RowsAreExactlyCustomRoles` | src/pages/role/index.jsx:47 | The rows are exactly the server's `type === 3` items, in server order, none dropped or repeated. |
| `RolePage.RowMembership` | src/pages/role/index.jsx:47 | An item is shown exactly when it is in the server list and has `type === 3`. |
| `RolePage.ListParams` | src/pages/role/index.jsx:29-33 | The request parameters are the conditions plus `pageNum` and `pageSize`, which override same-named condition keys. |
| `RolePage.RoleListPage.constructor` | src/pages/role/index.jsx:22-26 | The initial state is page 1, size 20, empty conditions, no record and the modal hidden; the first list request is sent with those parameters. |
| `RolePage.RoleListPage.Refresh` | src/pages/role/index.jsx:41 | After a handler, the list request is sent again exactly when `conditions` (by identity), `pageNum` or `pageSize` changed. Keeps the invariant that the latest list request carries the current parameters. |
| `RolePage.RoleListPage.OnFinish` | src/pages/role/index.jsx:107-110 | Submitting the query form resets `pageNum` to 1, replaces the conditions with the form values, and sends the new query. |
| `RolePage.RoleListPage.OnPageNumChange` | src/pages/role/index.jsx:140 | Only `pageNum` changes, and a query is sent when it differs. |
| `RolePage.RoleListPage.OnPageSizeChange` | src/pages/role/index.jsx:141 | `pageNum` goes back to 1, `pageSize` takes the new value, and the conditions are kept. |
| `RolePage.RoleListPage.OnAdd` | src/pages/role/index.jsx:126 | Add opens the modal with no record, so not in edit mode. Nothing else changes. |
| `RolePage.RoleListPage.OnEdit` | src/pages/role/index.jsx:63-67 | Edit opens the modal on the row, in edit mode (`isEdit = !!record`). |
| `RolePage.RoleListPage.HandleDelete` | src/pages/role/index.jsx:89-94 | Sends the delete. Once it resolves, the same query is re-sent from a copy of the conditions. A rejected delete changes nothing else and is passed on. |
| `RolePage.RoleListPage.OnModalOk` | src/pages/role/index.jsx:149 | Hides the modal and re-sends the same query. |
| `RolePage.RoleListPage.OnModalCancel` | src/pages/role/index.jsx:150 | Hides the modal; nothing else changes. |
| `RolePage.BrowseThenQuery` | src/pages/role/index.jsx:107-141 | Starting from the initial query, changing page and page size and then submitting the query form sends a query for page 1 with the chosen size and exactly the submitted values. |

## Left out

- `formatMenus` comes from a UI library whose source is not part of this model. It is a parameter, so nothing is proved about the tree it builds: completeness, sibling order and cycles are unverified.
- `getSubApps` has a `|| []` fallback for a falsy `getMenus()` result. It is not modelled, because the `formatMenus` parameter always returns a list.
- `children?.length` is not modelled for a `children` value that is absent or not an array: a node's children are always a sequence, empty when it has none.
- The mock-mode `setTimeout` pause in `getMenus` is scheduling only and is left out.
- Promises are modelled sequentially. Concurrent callers that share the pending promise before it settles are not modelled: the cache is either empty or holds a settled outcome.
- `MenuService.GetMenuData`'s cache is never cleared, as in the source. Invalidating it on a principal change is outside the code.
- `MenuApi.NormalizeReply`, `MenuApi.MenuService.GetMenuData` and `MenuApi.MenuService.GetCollectedMenus`: a resolved reply is assumed to be an array of objects. A reply of `null` or a non-array, or a `null` item, makes `res.map` / `item.order` (src/api/index.js:19) or `data.filter` (line 64) throw. The call then rejects, and in `getMenuData` that rejection would stay cached. The model does not cover this error path.
- The HTTP transport is not modelled. Each reply is an input, and sends are recorded in a log.
- For the role page, the transport's own handling of a failed list request is left out.
- Numbers are integers. Floating point, `NaN` and `-0` are not modelled, and `Num` stringifies as an integer.
- Record fields hold primitives and arrays; an object nested inside a field is not modelled.
- `RoleEditModal.RoleForm.SetFieldsValue` is a shallow merge, because nested form values are not modelled.
- The debounce of `useDebounceValidator` is timing only and is left out. `RoleEditModal.CheckName` models a single, settled validation.
- `RoleEditModal.CheckName`: the names and ids compared with `===` are assumed to be primitives. `===` on two arrays compares identity, but the model compares them by their items. So a name that is an array equal item for item to the found role's name is a duplicate in the model, while the code lets it pass.
- `fetchRoleByName` resolving to a truthy non-object is not modelled: the lookup yields a role record or nothing.
- The role page uses React's re-fetch on changed dependencies. It is modelled as "a list request is sent exactly when a dependency changed". Object identity of `conditions` is a counter bumped by each `setConditions`.
- JSX rendering, layout, column definitions, responsive flags, success tips and validation message wording are left out.
