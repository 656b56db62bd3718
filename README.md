# Capture Central: live-events page and app shell, modelled in Dafny

This project models two pieces of control logic in the Capture Central web application.

- **The live-events list page** (`capture-central-live-events`). This element loads the user's permissions and then the list of live events. It classifies what it renders (spinner, blocking alert, or manage view), keeps a per-row selection flag with a select-all control, and deletes events one at a time or in bulk. `LiveEvents.LiveEventsPage` is a class whose fields are the element's fields. Its methods update those fields as the element's methods do. The pure list operations the methods are specified by (first match, splice, filter, select-all fold) live in `LiveEventRows`, with lemmas about them.
- **The application shell** (`d2l-capture-central-app`). On each navigation, `setupPage` maps the resolved `(page, subView)` to one action: redirect to `/admin`, load one page module, or fall back to the 404 page, which also rewrites the routing store's page. `render` marks page elements `active`. `AppShell` models the dispatch as a function. It models the routing store and the shell as small classes, and the visibility rule as a predicate, together with the facts relating the two.

Remote calls are oracles, passed in as parameters:
- the permissions object, or a failure;
- the event list, or a failure;
- the set of ids whose delete fails.

Localized strings are kept as their keys. Whether the inline alert element is present in the shadow root is the parameter `alertInDom`. That element exists exactly when the last render was the manage view.

Files:
- `wrappers.dfy`: the `Option` type.
- `live_event_rows.dfy`: rows and list functions.
- `live_events.dfy`: the page class.
- `app_shell.dfy`: the dispatcher, visibility rule, store and shell.

## Model

| member | source | states |
|---|---|---|
| LiveEvents.LiveEventsPage.constructor | src/components/capture-central-live-events.js:69-77 | The page starts loading, with an empty list, no rights, no error and no alert. |
| LiveEvents.ManageAndViewIndependent | src/components/capture-central-live-events.js:114-119 | Manage rights can hold without view rights, and view rights can hold without manage rights. |
| LiveEvents.BooleanTrueGrantsNothing | src/components/capture-central-live-events.js:114-119 | A boolean `true` rather than the string 'true' under any key the tests read denies that test: canViewLiveEvents denies view, canManageLiveEvents denies manage, and canAccessCaptureCentral denies both. |
| LiveEvents.CanView | src/components/capture-central-live-events.js:114-116 | View rights hold iff both canViewLiveEvents and canAccessCaptureCentral are present and hold the string 'true'. Any other value, a missing key included, denies. |
| LiveEvents.CanManage | src/components/capture-central-live-events.js:117-119 | Manage rights hold iff both canAccessCaptureCentral and canManageLiveEvents are present and hold the string 'true'. View rights play no part. |
| LiveEvents.RowOf | src/components/capture-central-live-events.js:213-245 | A row shows the event's id, title and status. It has a checkbox and a menu iff manage rights hold. The checkbox is checked iff the row's state is present and selected, so a row without state renders unchecked. |
| LiveEvents.LiveEventsPage.HideAlerts | src/components/capture-central-live-events.js:137-143 | When the inline alert is in the DOM, it is hidden and the message cleared. Otherwise nothing changes. |
| LiveEvents.LiveEventsPage.ResetForReload | src/components/capture-central-live-events.js:106-110 | Reload first sets loading, empties the list and permissions, hides the alerts and clears the error flag. The select-all checkbox ends up unchecked, because the spinner render drops the manage view and the header checkbox is redrawn with no `checked` binding. |
| LiveEvents.LiveEventsPage.Reload | src/components/capture-central-live-events.js:105-135 | Reload always ends not loading and with the select-all checkbox unchecked. A listEvents call with the search query is made iff permissions were fetched and grant view. Rights are the string tests, and keep their old values when the fetch fails. The error flag is set iff a fetch that was made failed. The list is exactly the fetched items when there is no error and view is granted, and empty otherwise. The alert key is getLiveEventsError on error and unauthorized without view. The rendered view is the blocking unauthorized alert, the blocking load-error alert, or the manage view whose table is empty iff the fetched list is. |
| LiveEvents.LiveEventsPage.UpdateLiveEventForSelection | src/components/capture-central-live-events.js:169-172 | The first row with the id gets the given selection and no other row changes. When no row has the id, the list is unchanged and `found` is false. |
| LiveEvents.LiveEventsPage.AddToSelection | src/components/capture-central-live-events.js:157-167 | Unchecking a row forces select-all false, while checking leaves it unchanged. The row's selection is updated as by `_updateLiveEventForSelection`. |
| LiveEvents.LiveEventsPage.AddAllToSelection | src/components/capture-central-live-events.js:145-155 | The loop over the row checkboxes yields the select-all fold. With unique ids, every row ends up selected iff the header checkbox is checked, and rows keep their ids and order. |
| LiveEvents.LiveEventsPage.BeginDelete | src/components/capture-central-live-events.js:182-186 | Before awaiting, a delete hides the alerts and issues the delete request for the id. |
| LiveEvents.LiveEventsPage.SettleDelete | src/components/capture-central-live-events.js:185-198 | On success, the first row with the id is removed (the list is unchanged if there is none). On failure, the list is unchanged, the alert key is deleteEventError, and the alert is shown when it is in the DOM. |
| LiveEvents.LiveEventsPage.DeleteEvent | src/components/capture-central-live-events.js:182-199 | One request for the id. A success removes exactly the first row with the id and leaves the alert hidden. A failure keeps the list and shows deleteEventError. |
| LiveEvents.LiveEventsPage.RequestSelectedDeletes | src/components/capture-central-live-events.js:174-178 | Delete requests go out exactly for the selected rows, in row order. The alerts are hidden iff at least one request is made. |
| LiveEvents.LiveEventsPage.SettleDeletes | src/components/capture-central-live-events.js:175-179 | Settling the outstanding deletes in turn applies them to the list. The alert shows deleteEventError iff some delete failed. |
| LiveEvents.LiveEventsPage.BulkDelete | src/components/capture-central-live-events.js:174-199 | Requests go to exactly the selected ids. With unique ids, the final list is the original rows that were unselected or whose delete failed, in order. The alert shows deleteEventError iff some delete failed and is otherwise hidden (when present). |
| LiveEvents.LiveEventsPage.Render | src/components/capture-central-live-events.js:294-337 | Spinner iff loading. Otherwise the blocking alert with the alert message iff view is missing or the error flag is set. Otherwise the manage view, whose empty-list message appears iff the list is empty. That view shows the select-all box, row checkboxes (reflecting the selection) and row menus iff manage rights hold, in list order. |
| LiveEvents.SearchNavigation | src/components/capture-central-live-events.js:201-210 | A search navigates to '/' with `{searchQuery}` iff the query is non-empty, and with no query parameters otherwise. |
| LiveEvents.ObservedReload | src/components/capture-central-live-events.js:96-100 | The query-parameter observer reloads iff the current page is the landing page. The reload receives the new parameters' searchQuery when present, and '' when it is absent. |
| LiveEvents.SearchRoundTrip | src/components/capture-central-live-events.js:96-100 | A search submitted on the landing page comes back as a reload with exactly the submitted text. An empty search leaves no parameters. |
| LiveEventRows.FindIndex | src/components/capture-central-live-events.js:194 | The result is -1 iff no row has the id. Otherwise it is the index of the first row with the id. |
| LiveEventRows.SetSelection | src/components/capture-central-live-events.js:170-171 | Length is kept, and only the first row with the id changes, to `state = {selected}`. |
| LiveEventRows.RemoveFirst | src/components/capture-central-live-events.js:194-196 | With no row of that id the list is unchanged. Otherwise exactly one row is removed. |
| LiveEventRows.RemoveFirstIsSplice | src/components/capture-central-live-events.js:194-196 | Removing the first match equals `splice(findIndex, 1)`: the rows before and after it, in order. |
| LiveEventRows.SelectedIds | src/components/capture-central-live-events.js:175-177 | An id is listed iff some row with that id has `state.selected` true, and there are no more ids than rows. The row order comes from the definition, which walks the list in order. |
| LiveEventRows.Without | src/components/capture-central-live-events.js:174-199 | A row is in the result iff it is in the list and its id is not among the removed ids; the result is no longer than the list. The order is kept by the definition, which filters front to back. |
| LiveEventRows.Kept | src/components/capture-central-live-events.js:174-199 | A row is in the result iff it is in the list and it was unselected or its delete failed. The order is kept by the definition, which filters front to back. |
| LiveEventRows.ApplyDeletes | src/components/capture-central-live-events.js:175-199 | Applying the settled deletes in turn removes at most one row per target. |
| LiveEventRows.ApplyDeletesIsWithout | src/components/capture-central-live-events.js:175-199 | With unique ids, applying the deletes in turn equals filtering out the ids whose delete succeeded. |
| LiveEventRows.BulkDeleteKeepsUnselectedAndFailed | src/components/capture-central-live-events.js:174-199 | With unique ids, deleting the selected rows in turn leaves exactly the rows that were unselected or whose delete failed, in order. |
| LiveEventRows.ToggleAll | src/components/capture-central-live-events.js:148-154 | The checkbox-by-checkbox select-all loop keeps the number of rows. |
| LiveEventRows.SelectAllResult | src/components/capture-central-live-events.js:145-154 | Select-all over the rendered table keeps the number of rows. |
| LiveEventRows.ToggleAllKeepsRows | src/components/capture-central-live-events.js:148-154 | For every list, the select-all loop changes only the rows' selection state: each row keeps its id, title, start time and status, in place. |
| LiveEventRows.MarkAll | src/components/capture-central-live-events.js:145-154 | Every row's selection becomes the given value and nothing else about the rows changes. |
| LiveEventRows.SelectAllMarksEveryRow | src/components/capture-central-live-events.js:145-154 | With unique ids, the checkbox-by-checkbox fold of select-all equals marking every row with the header's value. |
| AppShell.Dispatch | src/d2l-capture-central-app.js:80-139 | Fallback iff the page is not a listed case, and redirect (to /admin) iff the page is ''. course-videos loads the player iff subView is truthy. live-events and presentations load their edit module iff subView is 'edit'. Every other listed page (admin, audit-logs, clips, folders, groups, live-events-reporting, settings, upload-video, users, visits) loads its own module. |
| AppShell.StoredPage | src/d2l-capture-central-app.js:80-138 | After setupPage the store holds '404' iff the page is not a listed case. A listed page is kept as it is. |
| AppShell.Imported | src/d2l-capture-central-app.js:80-138 | The redirect imports nothing. A load imports exactly its module, and a fallback exactly the 404 module. |
| AppShell.Active | src/d2l-capture-central-app.js:146-160 | An element's `active` binding holds iff it is the page the reference `Shown` picks for (page, subView). The groups and users modules have no element and are never active. |
| AppShell.ActivePagesAreShown | src/d2l-capture-central-app.js:142-163 | The set of active page elements is empty or the single element named by the reference `Shown`. |
| AppShell.AtMostOneActive | src/d2l-capture-central-app.js:146-160 | For every (page, subView), at most one page element is active. |
| AppShell.DispatchAgreesWithRender | src/d2l-capture-central-app.js:76-163 | After a fallback exactly the 404 element is active, and after a load at most the loaded page is. No element is active iff the page is '', groups or users, or live-events/presentations with a sub-view other than 'edit'. |
| AppShell.RoutingStore.SetRouteCtx | src/d2l-capture-central-app.js:77-78 | The store then holds the resolved page and sub-view. |
| AppShell.RoutingStore.SetPage | src/d2l-capture-central-app.js:136 | The store's page is overwritten and the sub-view kept. |
| AppShell.App.Render | src/d2l-capture-central-app.js:142-163 | The active elements are those whose predicate holds for the store's page and sub-view. There are at most one, and for page '404' exactly the 404 element. |
| AppShell.App.SetupPage | src/d2l-capture-central-app.js:76-140 | The store holds the page, or '404' on fallback, and listed pages are never rewritten. Exactly the dispatched module is imported, or '/admin' is navigated to for ''. Afterwards render shows the 404 page after a fallback, at most the loaded page after a load, and nothing after the redirect. |

## Left out

- Lit templates, CSS, `formatDateTime` and the header texts: `render` is modelled only as a classification of state (`View`), with rows reduced to id, title, status, checkbox and menu.
- Localization: `localize(key)` is kept as the key itself.
- Shadow-root queries and `style.display`: the inline alert's presence is the parameter `alertInDom` and its visibility a boolean field. A row checkbox's `checked` is taken to equal its row's selection when select-all runs.
- `getPermissions`, `listEvents`, `deleteEvent` and `requestDependency` are foreign calls. Their outcomes are inputs: a `Fetch` value and the set of ids whose delete fails.
- Concurrency: overlapping reloads and the interleaving inside `Promise.all` are not modelled. Bulk delete runs every synchronous part of `_deleteEvent` (hide the alerts, send the request) first, then the continuations one after another in row order.
- The order in which concurrent delete responses arrive is not modelled: the continuations settle in row order.
- MobX `observe`/`toJS` and `connectedCallback`: only the observer's decision is modelled (`ObservedReload`), with the landing page name as a parameter, since its value is defined outside this model.
- The guard at line 92 of the component reads `this.loading`, which the component never sets (it sets `_loading`). The guard therefore never returns early and is not modelled as a guard.
- The `event.delete` closure attached to each row in reload is not modelled: rows are values, so aliasing between the list and the objects the table holds is left out.
- `listEvents` results without `items`, and `getPermissions` resolving to null or undefined, are not modelled. The fetched listing is the item list itself, and a fetched permission value is always an object. In the source, a null permissions value throws at the first property read. The catch then puts the page in the error state, with `_permissions` left null.
- Row ids are taken to be strings, like the `event-id` attribute they are compared with using `===`. A non-string id from listEvents, which would make every checkbox toggle on that row throw, cannot be expressed.
- SettleDelete: on a failure when the inline alert is not in the DOM, the source sets the message and then throws when it reads `.style` of null. That rejects `_deleteEvent` and, inside `_bulkDelete`, the `Promise.all`. The model sets the message and returns normally. This case arises only when a response arrives after the manage view has gone, which requires the concurrency left out above.
- SearchRoundTrip: assumes `_navigate` leaves exactly the passed query parameters in the routing store. The navigation mixin is not part of this model.
- The `page.js` route table, `page.base`, and the routing store's derivation of `page`/`subView` from the context are not part of this model. `(page, subView)` are inputs, with a missing sub-view written as "", since undefined and '' behave alike in every test the shell makes.
- Dynamic `import()` is recorded as a page-module tag. The page modules themselves (including the admin page's static markup) are not modelled.
- `ResizeObserver`/`_resized` are layout plumbing and are not modelled.
- AddAllToSelection: the "every row ends with the header's value" ensures holds only when row ids are unique. With duplicate ids, `find` always hits the first row, and the model states only the fold `SelectAllResult`.
- BulkDelete: the "unselected or failed rows remain" ensures holds only when row ids are unique. With duplicate ids, `findIndex` hits the first row, and the model states only `ApplyDeletes`. The delete outcomes are a set of failing ids, so every request for one id has the same outcome. With duplicate ids, a run where the first delete of an id succeeds and a later one fails cannot be expressed.
- ApplyDeletes: its own contract states only the length bounds. What it leaves is stated by ApplyDeletesIsWithout under unique ids.

Behaviour of the code that the model keeps, although one might expect otherwise:
- reload does not reset `_canView`/`_canManage`. When the permission fetch fails, they keep their previous values.
- When the inline alert element is not in the DOM, hideAlerts leaves an earlier alert message in place.
- A failed delete within a bulk delete shows its error through the same inline alert, which the other deletes do not hide again, because all their hides ran before any response.
