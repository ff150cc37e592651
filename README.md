# Construction inventory: a verified model of its access control and request workflow

The system is a Flask web application. It keeps a construction company's budget
inventory across several project sites. Each site has one access code. Signing in
with a site's code makes the session that site's administrator, pinned to that site.
The global administrator's code gives a session that sees every site or one selected
site.

Administrators plan budget items under labels such as "Budget 1 - Flats(Woods)".
Anyone, signed in or not, files requests against items. Administrators approve or reject the
requests. An approval records an *actual* (what was spent), and the actuals report
reconciles the planned items with them. Notifications tell the global administrators
about new requests, and tell each site about decisions on its requests.

This project models that core in Dafny:

- **Database.** The tables are maps from integer ids to rows, in the class
  `State.Store`, with one auto-increment counter per table. `Tables.Db` is a value
  snapshot of the store.
- **Session.** The Flask session is the class `State.Session`, and `Scope.SessionView`
  is its value.
- **Route handlers.** Every route handler is a method on the store and the session.
  Its postcondition ties the outcome and the new database to a pure step function of
  the old database. The properties the application promises are proved as lemmas
  about those step functions:
  - tenant isolation;
  - the dedup key of approvals;
  - the notification cascade;
  - the unique site names;
  - the order of login resolution;
  - the audit log.
- **Budget labels.** The pure label logic of `utils.py` is modelled by functions and
  lemmas. Its one loop-based builder, `generate_budget_options`, is modelled by
  methods with loop invariants.

Modules: `Wrappers`, `Models` (the rows), `Strings` (the Python string builtins the
code relies on), `Utils` (utils.py), `Tables` (the database and queries), `Scope`,
`State`, `Inventory`, `Workflow`, `Reports`, `Admin`, `Notify` and `Auth`.

Modelling conventions:

- `.first()` on a table is the row with the smallest id.
- Ordering by `created_at` descending is ordering by id descending, which agrees as
  long as the clock does not run backwards.
- A flash message, redirect or HTTP status becomes an `Outcome`: `Ok`,
  `PermissionDenied`, `NotFound`, `Invalid(field)`, `Duplicate(field)`,
  `Unauthenticated` or `ServerError`.
- Password hashing is the function parameter `hashOf`, and checking is the predicate
  parameter `matches`.
- The clock is the parameter `now`, and the uuid session token is the parameter
  `token`.
- Money and quantities are exact reals.

## Model

| member | source | states |
|---|---|---|
| Models.AmountIsProduct | models.py:23-28 | `amount` is `qty * unit_cost`, a missing unit cost counting as zero; it is 0 when either factor is missing or zero |
| Utils.NormalizeBudget | utils.py:49-53 | `normalize_budget` gives "" for None or ""; its result holds no space and no upper-case letter |
| Utils.Normalize | utils.py:53 | the normalized text neither starts nor ends with whitespace |
| Utils.NormalizeIdempotent | utils.py:49-53 | normalizing twice is normalizing once |
| Utils.MatchAll | utils.py:63-64 | an empty or None filter, or "All", admits every item label |
| Utils.MatchReflexive | utils.py:66-71 | labels that normalize alike match, so every label matches itself |
| Utils.MatchBaseFilter | utils.py:75-83 | a filter without "(" admits exactly the labels whose part before the first "(" normalizes like the filter |
| Utils.MatchSubgroupFilter | utils.py:66-83 | a filter containing "(" admits exactly the labels that normalize like it |
| Utils.MatchBaseSelectsBudget | utils.py:73-81 | on generated labels, the base filter "Budget m - T" admits "Budget n - T'(S)" exactly when n = m and T' = T |
| Utils.MatchExampleOwnBudget | utils.py:73 | "Budget 1 - Flats" admits "Budget 1 - Flats(General Materials)" |
| Utils.MatchExampleOtherBudget | utils.py:73-83 | "Budget 1 - Flats" does not admit "Budget 2 - Flats(Woods)" |
| Utils.MatchExampleAll | utils.py:63-64 | "All" admits "Budget 2 - Flats(Woods)" |
| Utils.LabelInjective | utils.py:20 | different budget numbers, building types or subgroups give different labels |
| Utils.FilterBudgetsByType | utils.py:55-59 | the result is exactly the labels holding "- T(" (all of them without a type), in their order |
| Utils.FilterNoDup | utils.py:55-59 | filtering keeps a list free of duplicates |
| Utils.ExtractBudgetParts | utils.py:103-122 | both parts are present or both absent; they are present only for a label holding "(" and ")" |
| Utils.ExtractGeneratedLabel | utils.py:110-118 | on a generated label the subgroup comes back exactly; the building type comes back cut at its last "-", so "Semi-detached" and "Fully-detached" both give "detached" |
| Utils.CategoryGroup | utils.py:144-150 | a known category maps to itself; any other maps to "Materials" |
| Utils.DetermineGroup | utils.py:124-150 | the group is always one of the eight values the two tables produce |
| Utils.DetermineGroupOfLabel | utils.py:126-141 | a label naming a known subgroup decides the group, whatever the category |
| Utils.DetermineGroupFallback | utils.py:143-150 | without a parenthesised subgroup the category decides, unknown categories giving "Materials" |
| Utils.CalculateLineAmount | utils.py:94-101 | the line amount is the product, a missing factor counting as zero |
| Utils.LineAmountIsItemAmount | utils.py:94-101 | the line amount of an item's quantity and unit cost is the item's `amount` |
| Utils.BudgetNumberOfLabel | utils.py:34-44 | the sort key of a generated label is its budget number |
| Utils.GeneratedCount | utils.py:14-21 | budgets 1 and 2 give 4 x 5 labels each, and every later budget gives 4 x 7 |
| Utils.GeneratedLabels | utils.py:14-21 | the generator emits "Budget n - T(S)" for every n in 1..max, every property type T and every subgroup S of n, and nothing else |
| Utils.GeneratedNumbers | utils.py:14-21 | every generated label's number lies in 1..max |
| Utils.GeneratedNoDup | utils.py:14-21 | the generated labels hold no duplicates |
| Utils.AppendNewSpec | utils.py:24-27 | appending the existing budgets that are not yet listed gives the union, with no duplicates and the generated labels first |
| Utils.SortByKeyOrdered | utils.py:33-47 | sorted output is ordered by budget number, then by label; labels without a number (key 999) follow the numbered ones |
| Utils.SortKeepsMembers | utils.py:47 | sorting keeps exactly the same labels |
| Utils.SortNoDup | utils.py:47 | sorting keeps a list free of duplicates |
| Utils.BudgetOptionsMembers | utils.py:8-47 | the options are free of duplicates and are exactly the generated and existing labels carrying the building type's marker |
| Utils.BudgetOptionsOrdered | utils.py:33-47 | the options come in order of budget number, then of label |
| Utils.GenerateLabels | utils.py:13-21 | the nested loops build exactly the generated label list |
| Utils.AppendRow | utils.py:19-21 | the innermost loop appends one building type's row of labels |
| Utils.GenerateBudgetOptions | utils.py:8-47 | the generator, loops included, returns the option list whose members and order the lemmas above state |
| Tables.First | routes.py:1182 | `.first()`: the row found satisfies the filter and has the smallest such id; None exactly when no row satisfies it |
| Tables.CodeFor | routes.py:1182 | the access-code lookup by kind and site finds the smallest matching id, or None exactly when there is none |
| Tables.InitialDb | database.py:18-27 | a fresh database holds one global code, 'admin123', and no other row |
| Scope.AssignedProjectSite | routes.py:58-63 | None for a global administrator, else the session's scope site |
| Scope.SiteAdminSeesOnlyAssigned | routes.py:65-72 | a session that is not global and has an assigned site sees exactly that site's rows, whatever `project_site` says |
| Scope.NoAssignedSiteSeesNullRows | routes.py:73-75 | with no assigned site the filter is `IS NULL`: exactly the rows of no site |
| Scope.GlobalSeesSelection | routes.py:77-82 | a global administrator sees the selected site's rows, or all rows when none is selected |
| Scope.ScopeIsUserSite | routes.py:47-82 | whenever the scope site is non-empty, the rows in scope are exactly that site's |
| Inventory.FormRefusal | routes.py:103-143 | a refused item form is never Ok, and is PermissionDenied exactly for a session that is not an administrator's |
| Inventory.CreateItemRefused | routes.py:103-121 | a refused form changes nothing |
| Inventory.CreateItemStep | routes.py:103-143 | the creation step succeeds exactly for an accepted form; it changes only the items table, and a refusal changes nothing |
| Inventory.CreateItemAdds | routes.py:122-143 | an accepted form adds exactly one item under the next id: on the session's site, with a known group, the stripped name and budget, and the parsed numbers (0 when blank) |
| Inventory.CreatedItemInScope | routes.py:139 | the creator sees the created item, unless its scope site is the empty string |
| Inventory.ValidateItemForm | routes.py:103-143 | the checks run in the source's order and accept exactly the forms the step function accepts |
| Inventory.CreateItem | routes.py:103-143 | the handler's outcome and new store are the creation step's |
| Inventory.EditItemEffect | routes.py:303-343 | an edit changes only that item's quantity and unit cost; a given number replaces the field; an absent quantity keeps the old one; an absent unit cost stores the old one, or 0 when the item had none; the new amount is their product |
| Inventory.EditItemStep | routes.py:303-343 | the edit step is NotFound exactly for an administrator naming a missing item; it changes only the items table, keeps its ids, and a refusal changes nothing |
| Inventory.EditItem | routes.py:303-343 | the handler's outcome and new store are the edit step's |
| Inventory.DeleteItemOutcomes | routes.py:345-398 | NotFound exactly for a missing id; PermissionDenied for a site administrator's item of another site, even one of no site; failures change nothing; success removes only that item |
| Inventory.DeleteItemStep | routes.py:345-398 | the delete step changes only the items table, only by removing rows, and a refusal changes nothing |
| Inventory.DeleteItem | routes.py:345-398 | the handler's outcome and new store are the delete step's |
| Inventory.DeleteAllSiteAdmin | routes.py:406-414 | a site administrator's bulk delete removes every item of its site and no row of another site |
| Inventory.DeleteAllStep | routes.py:400-435 | the bulk delete succeeds exactly for an administrator who is global or has an assigned site; it only removes items and requests, keeps the requests unless asked, and a refusal changes nothing |
| Inventory.DeleteAllEverything | routes.py:423-427 | a global administrator with no site selected empties the items, and the requests when asked |
| Inventory.DeleteAllInventory | routes.py:400-435 | the handler's outcome and new store are the bulk-delete step's |
| Inventory.CreateItemIsolated | routes.py:130-143 | a site administrator's new item leaves every other site's items, requests and actuals as they were |
| Inventory.InsertItemIsolated | routes.py:141-142 | inserting a row of one site under a fresh id leaves every other site's rows as they were |
| Inventory.EditItemIsolated | routes.py:313-327 | a site administrator's edit leaves every other site's rows as they were |
| Inventory.DeleteItemIsolated | routes.py:364-378 | a site administrator's delete leaves every other site's rows as they were |
| Inventory.DeleteAllIsolated | routes.py:406-414 | a site administrator's bulk delete leaves every other site's rows as they were |
| Workflow.RequestRefusal | routes.py:454-471 | refusals follow the source's order of checks; only an id that parses but names no item is NotFound |
| Workflow.FileRequest | routes.py:473-501 | an accepted form adds the request under the next id and leaves the items, actuals and codes alone |
| Workflow.MakeRequestRefused | routes.py:454-471 | a refused request form changes nothing |
| Workflow.MakeRequestStep | routes.py:438-506 | filing succeeds exactly for an accepted form, whoever is signed in; it changes only requests and notifications, and a refusal changes nothing |
| Workflow.MakeRequestFiles | routes.py:473-501 | an accepted form files one Pending, undecided request on the session's site with the stripped non-empty note; a requester who is not global also adds one unread notification with no user id that points at it |
| Workflow.MakeRequestDefaults | routes.py:470-471 | an absent or empty quantity is 1; an absent or empty rate is the item's unit cost, or 0 |
| Workflow.ValidateRequestForm | routes.py:454-471 | the checks run in the source's order and accept exactly the forms the step function accepts |
| Workflow.MakeRequest | routes.py:438-506 | the handler's outcome and new store are the filing step's |
| Workflow.ExistingRecord | routes.py:595 | the dedup lookup finds an actual of the item whose notes are "Request #id" exactly when one exists |
| Workflow.SiteCode | routes.py:613-621 | the site's first project-site code, looked up only for a non-empty site name |
| Workflow.ApprovalPrice | routes.py:591 | `current_price or item.unit_cost or 0`; it fails exactly when the fallback needs an item that is gone |
| Workflow.RequestAccess | routes.py:577-584 | a decision may proceed exactly for an existing request that the session is global for or that belongs to its assigned site |
| Workflow.Record | routes.py:595-607 | after recording, an actual with the dedup key exists; if one existed nothing changed, else exactly one actual was added |
| Workflow.NotifySite | routes.py:609-633 | the decision notification touches only the notifications table; a site with no code or code 0 gets none; with a nonzero code, a missing item is a 500 with nothing added, otherwise exactly one unread notification of the decision's kind, to that code and naming the request, is added |
| Workflow.DecisionNotifies | routes.py:585-633 | a committed decision leaves no notification for a site without a nonzero code, a 500 when the item is gone, and otherwise exactly one unread Approval or Rejection notification to the site's code |
| Workflow.DecideEffect | routes.py:585-633 | a decision sets the status, decider and update time of that request only, keeps items and codes, and adds an actual exactly on a first approval; an approval whose price needs a missing item changes nothing |
| Workflow.Decide | routes.py:585-633 | a decision ends Ok or ServerError and never changes items, codes or sites; a rejection never changes the actuals |
| Workflow.ApproveStep | routes.py:571-636 | approval is NotFound exactly for an administrator naming a missing request; a refusal changes nothing; items, codes and sites never change |
| Workflow.RejectStep | routes.py:638-682 | as approval, and the actuals never change |
| Workflow.ApproveRejectByIdStep | routes.py:720-828 | a refusal or an invalid form changes nothing; only the action "approve" can change the actuals; items, codes and sites never change |
| Workflow.ApproveRecordsOnce | routes.py:591-607 | after an approval the dedup key is present; if it was already present the actuals are unchanged, else one actual for qty x price on the request's site is added |
| Workflow.ReapprovalAddsNoActual | routes.py:594-607 | approving the same request again adds no actual |
| Workflow.ReapprovalNotifiesAgain | routes.py:585-633 | approving the same request again, while its site has a nonzero code and its item exists, succeeds and adds a second Approval notification but no actual |
| Workflow.RejectRecordsNothing | routes.py:652-655 | a rejection never adds an actual and sets the status Rejected |
| Workflow.DecisionRefused | routes.py:571-584 | a non-administrator, or a site administrator deciding another site's request, is refused with nothing changed |
| Workflow.ByIdApproveAgrees | routes.py:720-792 | the by-id form's approve, given the id's text and no `approved_by`, is `approve_request` |
| Workflow.ByIdRejectAgrees | routes.py:720-820 | the by-id form's reject, given the id's text and no `approved_by`, is `reject_request` |
| Workflow.ByIdPrintedAgrees | routes.py:735 | in particular for the id as printed in decimal |
| Workflow.DecideIsolated | routes.py:585-607 | deciding a request of one site leaves every other site's rows as they were |
| Workflow.DecisionIsolated | routes.py:579-584 | a site administrator's decisions leave every other site's rows as they were |
| Workflow.ApplyDecision | routes.py:585-633 | the decision on the store, step by step, is the decision function's |
| Workflow.ApproveRequest | routes.py:571-636 | the handler's outcome and new store are the approval step's |
| Workflow.RejectRequest | routes.py:638-682 | the handler's outcome and new store are the rejection step's |
| Workflow.ApproveRejectById | routes.py:720-828 | the handler's outcome and new store are the by-id step's |
| Workflow.DeleteRequestEffect | routes.py:684-718 | a pending request cannot be deleted by a plain requester; a deletion removes the request and every notification pointing at it, keeps every other notification, and changes nothing else; a refusal changes nothing |
| Workflow.DeleteRequestStep | routes.py:684-718 | deleting is NotFound exactly for a missing request; it only removes requests and notifications, and a refusal changes nothing |
| Workflow.DeleteRequestIsolated | routes.py:695-698 | a site administrator deletes only requests of its own site |
| Workflow.DeleteRequest | routes.py:684-718 | the handler, with its loop over the notifications, leaves the store the delete step describes |
| Reports.ParseSelectionOfPattern | routes.py:1019-1025 | reading back "Budget n - T" with n in digits and T holding no " - " gives the number n and the stripped type T |
| Reports.LinesSound | routes.py:1027-1097 | every reconciled row is a planned item's, with the totals of its counted actuals |
| Reports.ActualsReport | routes.py:1010-1097 | the page reconciles exactly for a non-empty selection that " - " splits in two, and every row is a planned item of that selection |
| Reports.LinesSorted | routes.py:1039-1057 | rows come in strictly increasing item order, so no item appears twice |
| Reports.LinesComplete | routes.py:1073-1097 | every planned item has its row, even one without actuals |
| Reports.NoActualsZero | routes.py:1087-1090 | an item without counted actuals shows zero quantity and cost |
| Reports.TotalsAddActual | routes.py:1081-1086 | one more actual adds exactly its quantity and cost to its item's totals when counted |
| Reports.ApprovalReconciles | routes.py:591-607 | the first approval adds qty and qty x price to the item's reconciled totals; a repeated one adds nothing |
| Reports.ShowActuals | routes.py:1010-1097 | the page is unselected, a bad selection, or the reconciled rows |
| Reports.Reconcile | routes.py:1073-1097 | the loop over the planned items builds the reconciled rows |
| Reports.SumActuals | routes.py:1081-1086 | the per-item query sums exactly the counted actuals |
| Reports.BudgetKeyOfLabel | routes.py:852 | the summary key of a generated label is its budget number as printed |
| Reports.HasCellExists | routes.py:856-861 | a summary cell exists exactly when some item falls in it |
| Reports.EmptyCellZero | routes.py:861 | an empty cell sums to zero |
| Reports.SummarySkip | routes.py:849 | an item without a budget or building type changes no cell |
| Reports.SummaryAdd | routes.py:849-863 | an item adds its amount to its own cell and to no other |
| Reports.BudgetSummary | routes.py:847-863 | the dictionary holds exactly the non-empty cells, each with the summed amount of its items, and no empty row |
| Admin.UpsertCode | routes.py:1182-1194 | a code upsert changes only the code table |
| Admin.UpsertCodeFound | routes.py:1182-1194 | after the upsert, the lookup of that kind and site finds a row with the new hash and display code, and no other row changed |
| Admin.UpsertCodeKeepsUnique | routes.py:1213-1229 | at most one code per kind and site is kept |
| Admin.SiteAdminRotatesGlobalCode | routes.py:1172-1197 | as written, a project-site administrator may set the global code (see Findings) |
| Admin.UpdateGlobalCodeAsWritten | routes.py:1172-1197 | as written: any administrator with a non-blank code succeeds, and only the code table changes |
| Admin.UpdateGlobalCodeStep | routes.py:1172-1197 | corrected: only a global session succeeds; a refusal changes nothing |
| Admin.UpdateGlobalAdminCode | routes.py:1172-1197 | the handler follows the corrected step, not the route as written (see Findings) |
| Admin.GlobalCodeOnlyByGlobal | routes.py:1172-1197 | corrected: the global code changes exactly when the global administrator gives a non-empty code, and its lookup then finds it; a refusal changes nothing |
| Admin.SiteAdminSetsOtherSiteCode | routes.py:1201-1233 | as written, a site administrator may set another site's code (see Findings) |
| Admin.UpdateSiteCodeAsWritten | routes.py:1201-1233 | as written: any administrator with a non-blank site and code succeeds, whatever the site, and only the code table changes |
| Admin.UpdateSiteCodeStep | routes.py:1201-1233 | corrected: only a global session or that site's administrator succeeds; a refusal changes nothing |
| Admin.UpdateProjectSiteCode | routes.py:1201-1233 | the handler follows the corrected step, not the route as written (see Findings) |
| Admin.SiteCodeOnlyOwnSite | routes.py:1201-1233 | corrected: a site's code changes exactly when an administrator of that site, or the global one, gives site and code; the lookup then finds it |
| Admin.SiteNamed | routes.py:1250 | the name lookup finds a site of that name, and None exactly when no site has it |
| Admin.AddSite | routes.py:1252-1266 | adding stores the site under the next id and touches only sites and codes |
| Admin.AddSiteOutcome | routes.py:1237-1271 | adding succeeds exactly for an administrator with a non-empty name no site holds; a refusal changes nothing |
| Admin.AddSiteStep | routes.py:1237-1271 | adding is Duplicate exactly for an administrator's non-blank name a site already holds; it changes only sites and codes, and a refusal changes nothing |
| Admin.AddSiteResolves | routes.py:1252-1255 | after an add, the name resolves to the new site |
| Admin.AddSiteKeepsNamesUnique | models.py:88 | adding keeps site names unique and leaves items, requests and actuals alone |
| Admin.AddProjectSite | routes.py:1237-1271 | the handler's outcome and new store are the add step's |
| Admin.SiteById | routes.py:1288 | `get_or_404(site_id)` finds the site whose id the text parses to, or none |
| Admin.RenameSite | routes.py:1296-1306 | the site gets the new name and description; only sites and codes change |
| Admin.EditSiteEffect | routes.py:1273-1311 | with unique names, editing succeeds exactly for an administrator naming an existing site with a non-empty name no other site holds; names stay unique |
| Admin.EditSiteStep | routes.py:1273-1311 | editing changes only sites and codes, keeps their ids, and a refusal changes nothing |
| Admin.RenamePropagates | routes.py:1299-1306 | on a rename the site's first code follows the new name with its hash kept, no other code changes, and items, requests and actuals keep the old name |
| Admin.EditProjectSite | routes.py:1273-1311 | the handler's outcome and new store are the edit step's |
| Admin.RemoveSite | routes.py:1324-1337 | deleting removes the site and touches only sites and codes |
| Admin.DeleteSiteEffect | routes.py:1313-1340 | deleting succeeds exactly for the global administrator naming an existing site; only that site goes, and site-scoped rows stay |
| Admin.DeleteSiteStep | routes.py:1313-1340 | only a global session deletes; deleting only removes sites and codes, and a refusal changes nothing |
| Admin.DeleteSiteRevokesCode | routes.py:1327-1333 | the site's first code is removed and no other; with one code per site, no code for the deleted site remains |
| Admin.DeleteProjectSite | routes.py:1313-1340 | the handler's outcome and new store are the delete step's |
| Admin.FormIntReadsBack | routes.py:950-951 | `int(form.get(name, 0))`: a count printed in decimal reads back as itself, an absent one is 0, and blank text is the ValueError case |
| Admin.ConfigFor | routes.py:960-963 | the configuration lookup by building type and site finds the smallest matching id, or None exactly when there is none |
| Admin.UpsertConfig | routes.py:965-980 | the configuration upsert changes only the configuration table |
| Admin.SaveConfigOutcome | routes.py:946-983 | saving succeeds exactly when both counts parse and a building type is given, whoever is signed in; only configurations change |
| Admin.SaveConfigStep | routes.py:946-983 | saving changes only the configuration table, and a refusal changes nothing |
| Admin.UpsertConfigFound | routes.py:965-978 | after saving, the lookup finds the saved counts and notes, and no other row changed |
| Admin.UpsertConfigKeepsUnique | routes.py:960-978 | at most one configuration per building type and site is kept |
| Admin.SaveBuildingConfig | routes.py:946-983 | the handler's outcome and new store are the save step's |
| Admin.ClearAccessLogs | routes.py:1420-1431 | an administrator empties the access log and nothing else; anyone else is refused |
| Notify.VisibleMayChange | routes.py:1438-1491 | a session may change every notification it sees; a session that is not global sees exactly those it may change |
| Notify.Listed | routes.py:1438-1448 | the listing holds exactly the shown notifications, newest first |
| Notify.PageIsVisible | routes.py:1434-1450 | the notifications page lists exactly the visible notifications, each once, newest first |
| Notify.ShowNotifications | routes.py:1434-1450 | the handler returns exactly the visible notifications, newest first |
| Notify.Poll | routes.py:1509-1528 | the poll is absent exactly without a user id, and holds at most 10 ids |
| Notify.PollNewestUnread | routes.py:1514-1528 | the poll holds only visible unread notifications, newest first, and omits one only when 10 newer fill it |
| Notify.MarkReadEffect | routes.py:1452-1469 | marking succeeds exactly for a notification the session may change; it then leaves every poll; marking again changes nothing; only that row changes |
| Notify.MarkReadStep | routes.py:1452-1469 | marking changes only the notifications, keeps their ids, and a refusal changes nothing |
| Notify.MarkNotificationRead | routes.py:1452-1469 | the handler's outcome and new store are the mark-read step's |
| Notify.DeleteNotificationEffect | routes.py:1471-1507 | deleting succeeds exactly for a notification the session may change; NotFound for a missing id; only that notification goes |
| Notify.DeleteNotificationStep | routes.py:1471-1507 | deleting only removes notifications, and a refusal changes nothing |
| Notify.DeleteNotification | routes.py:1471-1507 | the handler's outcome and new store are the delete step's |
| Notify.CheckNotifications | routes.py:1509-1541 | Unauthenticated without a user id, else the poll |
| Auth.Mask | app.py:163 | the logged code is its first four characters and "****", so a short code is kept whole |
| Auth.SiteLogin | app.py:172-179 | the site found is the first, in id order, whose code accepts; None exactly when none does |
| Auth.Resolve | app.py:135-208 | a site login names the site the walk over sites found |
| Auth.LoginEmptyCode | app.py:129-132 | an empty code is refused with no log row and the session untouched |
| Auth.LoginStep | app.py:125-222 | a login changes only the access log, by one row for a non-blank code and none for a blank one; a failed login keeps the session, a successful one leaves an administrator's session with a user id |
| Auth.LoginLogsOnce | app.py:159-218 | every other attempt appends exactly one log row with the masked code: Success on a login, else Failed by 'Unknown' in role 'unknown' with the session untouched; nothing else changes |
| Auth.LoginGlobalFirst | app.py:135-169 | the global code is tried first; when it accepts, the session is the global administrator's in role 'admin' with all sites in scope |
| Auth.LoginSite | app.py:171-208 | otherwise the login succeeds exactly when some site's code accepts, and signs in as the first such site's administrator, pinned to it |
| Auth.LoginClearsSession | app.py:150 | a successful login does not depend on the session before it |
| Auth.RotatedGlobalCodeSignsIn | routes.py:1182-1196 | after the global code is set, the new code signs in as global administrator |
| Auth.DefaultCodeSignsIn | database.py:18-27 | on a fresh database the login succeeds exactly when the code matches the default hash, and then as global administrator |
| Auth.FindSite | app.py:172-179 | the loop over the sites stops at the site `SiteLogin` names |
| Auth.Enter | app.py:149-157 | `session.clear()` and the keys a login writes give exactly the new session |
| Auth.SignIn | app.py:125-222 | the handler's outcome, new store and new session are the login step's |
| Auth.Logout | app.py:224-228 | the session is emptied, and reports itself logged out |
| Auth.SessionInfo | app.py:230-242 | logged out exactly without a user id; otherwise the token, role, global flag and site |
| Auth.LoginThenInfo | app.py:125-242 | after a successful login the session reports itself logged in with the new token; after a failed one it reports what it reported before |
| Auth.SwitchEffect | routes.py:1342-1360 | switching succeeds exactly for a global administrator not in the site role; it scopes the session to the chosen site, or every site for an empty choice, and drops the assigned site; a refusal changes nothing |
| Auth.SwitchStep | routes.py:1342-1360 | a refused switch keeps the session; a switch never changes the user id, role or global flag |
| Auth.SwitchProjectSite | routes.py:1342-1373 | the handler's outcome and new session are the switch step's |

## Left out

- Rendering, `flash` texts, redirects, `jsonify` bodies and HTTP status codes are abstracted to `Outcome`. The Referer handling of `switch_project_site` is not modelled.
- The GET views are left out: listings, pagination, statistics, recent items, the CSV exports, the dashboard, admin settings and the access-log view. Exceptions: the actuals reconciliation, the budget-summary table and the notifications page.
- Password hashing and checking are the parameters `hashOf` and `matches`. The uuid session token is the parameter `token`, and the clock is the parameter `now`.
- Timestamps are whole seconds; `actual_date` is the day number, not a formatted date.
- Login's undefined `existing_session` and `override_session` are left out. The override prompt they guard is treated as if it did not exist.
- `ProjectSite.query.all()` has no ORDER BY; the model walks the sites in id order.
- "Newest first" on notifications is taken as descending id.
- `get_or_404` with an id that does not parse is treated as not found.
- `Strings.ParseInt` accepts an optional sign and decimal digits around whitespace. It does not accept Python's `_` digit separators or non-ASCII digits.
- The notification and flash message texts are not modelled. Only the fact that a decision notification reads `req.item.name` is kept, as the ServerError on a request whose item is gone.
- The budget-summary statistics and the building-type configuration display are left out.
- `actuals` builds and sorts its own `budget_options` list; that list is not modelled.
- `delete_item` on an item that a request or an actual still refers to is modelled as ServerError with nothing changed. This mirrors the ORM clearing a NOT NULL column and the handler rolling back; the database driver's own behaviour is not modelled further.
- delete_notification's exception handler (rollback and 500) is not modelled; deleting a row from a map cannot fail.
- A site rename does not rename the site's items, requests, actuals or configurations. The source does not rename them either, and Admin.RenamePropagates states it.
- save_building_config checks no role, and the model keeps that.
- A site login's access-log row has role 'admin', as the source writes it.
- The database is taken to be SQLite with foreign keys not enforced, the engine's default. Inventory.DeleteAllStep relies on it: a bulk delete of items leaves the requests and actuals that referred to them, and a bulk delete of requests leaves their notifications. On PostgreSQL (app.py:29-36) the item delete would fail on those references and `delete_all_inventory` would answer 500 with nothing deleted, and deleting requests would cascade to their notifications. The workflow's "item gone" ServerError paths rest on the same assumption.
- Strings.Strip, Strings.Lower and Strings.IsSpace follow ASCII only. Python's `strip`, `isspace` and `lower` follow Unicode (`'\xa0'` is whitespace, `'É'.lower()` is `'é'`). So stripped form fields, `normalize_budget`, the stored lower-case category and the building-type comparison of the actuals report differ from the source on non-ASCII input.
- UpdateGlobalAdminCode and UpdateProjectSiteCode follow the corrected steps of the Findings below, not the routes as written; the as-written behaviour is modelled by UpdateGlobalCodeAsWritten and UpdateSiteCodeAsWritten.
- Money is exact: the `Numeric(10, 2)` rounding and Python float arithmetic are not modelled.
- `format_currency` and the `User` model are not modelled.

## Findings

| source | as written | input that shows it | evidently intended | confidence | as-written member | corrected member |
|---|---|---|---|---|---|---|
| routes.py:1172-1197 | `update_global_admin_code` checks only `is_admin`, which admits the 'project_site_admin' role | a session signed in with a site's code posts any non-empty `new_code`; the global code becomes that code, so the site administrator can now sign in as global administrator | only the global administrator may set the global code | not executed | Admin.SiteAdminRotatesGlobalCode | Admin.GlobalCodeOnlyByGlobal |
| routes.py:1201-1233 | `update_project_site_code` checks only `is_admin` and takes the site name from the form | the administrator of site A posts `project_site=B` and a new code; site B's code is replaced, and A's administrator can sign in to B | a site administrator may set only its own site's code | not executed | Admin.SiteAdminSetsOtherSiteCode | Admin.SiteCodeOnlyOwnSite |

The handlers `Admin.UpdateGlobalAdminCode` and `Admin.UpdateProjectSiteCode` follow
the corrected steps `Admin.UpdateGlobalCodeStep` and `Admin.UpdateSiteCodeStep`. The
as-written steps are `Admin.UpdateGlobalCodeAsWritten` and
`Admin.UpdateSiteCodeAsWritten`.
