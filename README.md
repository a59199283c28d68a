# Hosting portal client state, in Dafny

This project models the client-side state logic of the XQIZ.IT hosting portal and proves
properties of it. Every server reply is a method parameter. Request transport, timers and
markup are not modelled.

- **Portal** (`portal.dfy`) models the registered-application table of the platform portal.
  Two pages share it: `Hosting` (`platformUI/gui/src/pages/hosting.js`) and `Home`
  (`platformUI/gui/src/pages/index.js`). It is one class, `AppTable`, with a `variant` constant.
  The class holds the two aligned lists `registeredApps` and `checkedApps`, and the in-flight
  guard `loadingIndex` with its tick counter `loadingTicks`. The two pages differ in two places:
  - how "add" derives the default domain (`DomainName`): Hosting cuts the module name before
    its first dot;
  - how the progress text grows (`LoadingText`).
- **HostControl** (`host_control.dfy`) models the single-application page of the host control
  GUI (`hostControl/gui/src/pages/index.js`). It has three fields, `loading`, `url` and `error`,
  and a fixed domain `shop.<userId>.user`.
- **ModuleStore**, **HostingStore** and **WebAppStore** model the three Pinia stores of the
  platform GUI. They cover the `moduleNames`/`webModuleNames` getters, `enhance` (it removes
  the `$type` metadata and attaches display badges), and `buildMap` (module name to index and
  badges).
- Shared modules:
  - `Text`: the JavaScript string built-ins used (`repeat`, `padEnd`, `indexOf`);
  - `JsonObject`: JSON objects as ordered property lists with `Object.keys`, property access,
    `delete` and assignment;
  - `Display`: the badge constants;
  - `Views`: what a row renders;
  - `HostApi`: the requests a page issues.

The state the pages update in place is modelled as classes whose methods have `modifies`
clauses. The getters and the badge computations are functions. The loops of `unregister`,
`enhance` and `buildMap` are loops, each proved against a specification function.

Behaviour of the code that the model keeps as written:
- A load whose request or JSON decoding fails runs only the `finally` that stops the timer.
  `loadingIndex` therefore stays set, and every later `sendRequest` on that page does nothing
  (`CompleteLoad` with `NoAnswer`).
- Unregistering rows while a load is pending is allowed. The load's result is then written to
  whatever row holds the captured index. If the table got shorter than that index, the source's
  state updater reads a missing row and throws a TypeError at `info.url = url`
  (`platformUI/gui/src/pages/hosting.js:69`, `platformUI/gui/src/pages/index.js:68`); nothing
  in the application catches it. The model writes nothing in that case (see the
  `Portal.AppTable.CompleteLoad` line under "## Left out").
- On the host control page a second submit while loading restarts the count at 0, and the
  progress text outranks a previous error.
- That second submit also replaces the stored timer
  (`hostControl/gui/src/pages/index.js:41`), so only the second timer is ever cleared (:59).
  The first timer keeps ticking after both loads end. Because `loading >= 0` outranks the error
  and the blank cell, the page then shows growing "loading." text with no load pending. The
  model allows this: `Tick` may follow `Complete` or the unload, and `Render` then gives
  `Progress`.
- The hosting store imports `apiHost` from `boot/axios`
  (`platformUI/gui/src/stores/hosting-store.js:2`), but that file exports only `apiModule`,
  `apiUser` and `apiWebApp` (`platformUI/gui/src/boot/axios.js:7`). As written, `updateModules`
  and `deleteModule` therefore fail before any request is sent. The model treats the request as
  if it could be made, so `HostingStore.Store.UpdateModules` takes the reply as a parameter.

The only guard against overlapping loads is `loadingIndex`, and unregistering is never refused.

## Model

| member | source | states |
|---|---|---|
| `Text.Repeat` | platformUI/gui/src/pages/hosting.js:241-242 | `c.repeat(n)` has length n and every character is c |
| `Text.PadEnd` | platformUI/gui/src/pages/index.js:227 | `padEnd` keeps s as a prefix, pads with c to the target length, and leaves s unchanged when the target is not longer |
| `Text.IndexOf` | platformUI/gui/src/pages/hosting.js:164 | `indexOf` is -1 exactly when c does not occur, otherwise the position of the first c |
| `JsonObject.Keys` | platformUI/gui/src/stores/module-store.js:15 | `Object.keys` lists each property's key, in order |
| `JsonObject.Get` | platformUI/gui/src/stores/webapp-store.js:23 | a property read is defined exactly when the key is present, and yields that property's value |
| `JsonObject.Remove` | platformUI/gui/src/stores/webapp-store.js:18-21 | `delete` drops exactly the key: what remains are properties of the object, no key is added, and every other key reads as before |
| `JsonObject.RemoveAppend` | platformUI/gui/src/stores/webapp-store.js:18-21 | `delete` acts on each part of the object on its own, so the remaining properties keep their relative order |
| `JsonObject.RemoveDistinct` | platformUI/gui/src/stores/webapp-store.js:18-21 | `delete` on an object without repeated keys leaves none repeated |
| `JsonObject.Put` | platformUI/gui/src/stores/webapp-store.js:23-31 | after assignment the key reads as the new value, and every other key reads as before |
| `JsonObject.PutKeys` | platformUI/gui/src/stores/webapp-store.js:23-31 | assignment keeps the key order: an existing key stays in place, and a new key goes last |
| `JsonObject.PutTwice` | platformUI/gui/src/stores/webapp-store.js:23-31 | assigning the same value twice equals assigning it once |
| `Portal.DomainName` | platformUI/gui/src/pages/hosting.js:161-172 | a typed domain is used as it is. An empty one defaults to the module name. On Hosting it is cut before the first dot, has no dot, is a prefix of the name, and is refused iff the name starts with "." (index.js:146-150 has no cut) |
| `Portal.LoadingText` | platformUI/gui/src/pages/hosting.js:240-242 | progress text is "loading." plus dots: Hosting has length 8 + ticks mod 15, Home has length max(8, ticks) as in index.js:227 |
| `Portal.IndicesWhereExact` | platformUI/gui/src/pages/hosting.js:191-200 | the positions listed for a checkbox value are exactly those whose checkbox has that value |
| `Portal.IndicesWhereIncreasing` | platformUI/gui/src/pages/hosting.js:191-200 | those positions are within the table and strictly increasing, so each appears once, in table order |
| `Portal.WhereAt` | platformUI/gui/src/pages/hosting.js:191-200 | the rows kept or dropped by the loop are the rows at exactly those positions, in table order |
| `Portal.WherePartition` | platformUI/gui/src/pages/hosting.js:191-200 | the dropped rows plus the kept rows are a permutation of the table |
| `Portal.WhereSizes` | platformUI/gui/src/pages/hosting.js:191-202 | dropped rows and kept rows together number as many as the table: a shorter `checkedNew` means a row was dropped |
| `Portal.WhereCheckedEmpty` | platformUI/gui/src/pages/hosting.js:202-204 | nothing is dropped exactly when no checkbox is set |
| `Portal.SplitChecked` | platformUI/gui/src/pages/hosting.js:191-200 | the loop returns exactly the checked rows (each sent an unregister request) and the unchecked rows in order, each with a clear checkbox |
| `Portal.WhereNoneChecked` | platformUI/gui/src/pages/index.js:187-190 | with no checkbox set, the kept rows are the whole table, so skipping the `setState` loses nothing |
| `Portal.AppTable.constructor` | platformUI/gui/src/pages/hosting.js:25-35 | empty table, user "<none>", `loadingIndex` = `loadingTicks` = -1 |
| `Portal.AppTable.ReceiveUserId` | platformUI/gui/src/pages/hosting.js:51-53 | the reported user id is stored |
| `Portal.AppTable.ReceiveRegisteredApps` | platformUI/gui/src/pages/hosting.js:54-57 | the reported applications replace the table, with as many checkboxes, all clear |
| `Portal.AppTable.Tick` | platformUI/gui/src/pages/hosting.js:60-62 | a tick adds exactly one to `loadingTicks` and changes nothing else |
| `Portal.AppTable.SetInfo` | platformUI/gui/src/pages/hosting.js:64-75 | only row ix gets the new url and error, and `loadingIndex` returns to -1 |
| `Portal.AppTable.SendRequest` | platformUI/gui/src/pages/hosting.js:77-109 | while a load is pending nothing changes and nothing is sent. Otherwise a row without url starts a load (`loadingIndex` = ix, ticks 0). A row with url is unloaded and its url and error are cleared at once |
| `Portal.AppTable.CompleteLoad` | platformUI/gui/src/pages/hosting.js:92-101 | an answer for an existing row sets url (ok) or error (not ok) on that row only, never both, and ends the load. No answer, or a vanished row, changes nothing |
| `Portal.AppTable.CloseAddModule` | platformUI/gui/src/pages/hosting.js:147-183 | empty or already registered names and rejected domains change nothing. Otherwise both lists grow by one: the new row `<d>.<userId>.user` and a clear checkbox |
| `Portal.AppTable.Unregister` | platformUI/gui/src/pages/hosting.js:185-205 | returns exactly the checked rows. The unchecked rows remain in order, the lists stay aligned, every checkbox is clear, and with nothing checked nothing changes |
| `Portal.AppTable.Toggle` | platformUI/gui/src/pages/index.js:193-198 | only checkbox ix is flipped |
| `Portal.AppTable.Row` | platformUI/gui/src/pages/hosting.js:224-245 | precedence url, then error, then this row's pending load, then blank. "Unload application" iff the row has a url |
| `HostControl.HomePage.constructor` | hostControl/gui/src/pages/index.js:8-13 | `loading` = -1, no url, no error |
| `HostControl.HomePage.ReceiveUserId` | hostControl/gui/src/pages/index.js:18-22 | the reported user id is stored |
| `HostControl.HomePage.Domain` | hostControl/gui/src/pages/index.js:31 | the target domain is "shop." + userId + ".user" |
| `HostControl.HomePage.Tick` | hostControl/gui/src/pages/index.js:24-26 | a tick adds exactly one to `loading` |
| `HostControl.HomePage.SendRequest` | hostControl/gui/src/pages/index.js:28-69 | with no url: load into the fixed domain and restart `loading` at 0, with no guard. With a url: unload and reset to -1, no url, no error |
| `HostControl.HomePage.Complete` | hostControl/gui/src/pages/index.js:45-59 | the load always ends with `loading` = -1. Status >= 400 or a rejection gives the error text. Otherwise the body is the url. url and error are never both set |
| `HostControl.HomePage.Render` | hostControl/gui/src/pages/index.js:71-94 | precedence url, then `loading` >= 0, then error, then blank (loading outranks error). The progress text is "loading." padded to `loading` |
| `ModuleStore.Classify` | platformUI/gui/src/stores/module-store.js:29-45 | "Missing dependencies" iff some dependency is unavailable, else "All dependencies available". "Issues found" and expandable iff issues are defined and non-empty. Otherwise "Resolved" iff `isResolved`, else "Not resolved yet" |
| `ModuleStore.EnhancedShape` | platformUI/gui/src/stores/module-store.js:25-47 | after `enhance` the `$type` key is gone and the other keys stay in order. Each value is a module with its classified badges, and all its other fields unchanged |
| `ModuleStore.EnhancedDistinct` | platformUI/gui/src/stores/module-store.js:25-47 | `enhance` keeps the keys of the modules object distinct |
| `ModuleStore.EnhanceIdempotent` | platformUI/gui/src/stores/module-store.js:25-47 | `enhance` applied twice equals applied once |
| `ModuleStore.WebNames` | platformUI/gui/src/stores/module-store.js:16-20 | a name is listed iff it is the name of a module whose type is "Web" |
| `ModuleStore.WebNamesAppend` | platformUI/gui/src/stores/module-store.js:16-20 | the web names of two objects laid end to end are those of the first followed by those of the second, and one property contributes its name exactly once if it is a web module and nothing otherwise: every web module is listed once, at its own position |
| `ModuleStore.WebNamesPrefix` | platformUI/gui/src/stores/module-store.js:16-20 | the web names of a prefix come first: the list follows iteration order |
| `ModuleStore.Store.constructor` | platformUI/gui/src/stores/module-store.js:6-10 | the store starts with no modules |
| `ModuleStore.Store.ModuleNames` | platformUI/gui/src/stores/module-store.js:15 | `moduleNames` are exactly the keys of the modules object, one per entry |
| `ModuleStore.Store.WebModuleNames` | platformUI/gui/src/stores/module-store.js:16-20 | `webModuleNames` are exactly the names of the stored modules whose type is "Web", and the list is `WebNames` of the modules object, so each web module appears once, in key order |
| `ModuleStore.Store.Enhance` | platformUI/gui/src/stores/module-store.js:25-47 | the in-place loop yields the `$type`-free, annotated object, and the keys stay distinct |
| `ModuleStore.Store.AnnotateModules` | platformUI/gui/src/stores/module-store.js:28-46 | the loop annotates every module in place and keeps keys and order |
| `ModuleStore.Store.UpdateModules` | platformUI/gui/src/stores/module-store.js:82-100 | a reply (a parsed object, so no key twice) replaces the modules and enhances them, and a failed request changes nothing |
| `ModuleStore.DevModulesDisplay` | platformUI/gui/src/stores/module-store.js:55-75 | bank.examples.org: all dependencies available, not resolved yet. bankStressTest.examples.org: resolved, and the only web module |
| `HostingStore.EntryFor` | platformUI/gui/src/stores/hosting-store.js:57-73 | the entry keeps its index. "Missing dependencies" iff some dependent module is unavailable. "Issues found" iff issues are defined and non-empty, else "All good" |
| `HostingStore.ModulesMapKeys` | platformUI/gui/src/stores/hosting-store.js:55-62 | the map has one key per distinct module name, and no other key |
| `HostingStore.ModulesMapLastWins` | platformUI/gui/src/stores/hosting-store.js:55-63 | a name's entry describes its last module, with that module's index |
| `HostingStore.ModulesMapIndex` | platformUI/gui/src/stores/hosting-store.js:62-63 | every entry's index points at a module of that name |
| `HostingStore.Store.constructor` | platformUI/gui/src/stores/hosting-store.js:6-44 | the store starts with the two sample modules and an empty map |
| `HostingStore.Store.BuildMap` | platformUI/gui/src/stores/hosting-store.js:54-84 | the fold yields the specified map. Only `modulesMap` is assigned, and `modulesJSON` is untouched |
| `HostingStore.Store.UpdateModules` | platformUI/gui/src/stores/hosting-store.js:102-121 | a reply replaces the list and rebuilds the map, and a failed request changes nothing |
| `HostingStore.SampleModulesMap` | platformUI/gui/src/stores/hosting-store.js:7-39 | "module 1": Missing dependencies and All good, index 0. "module 2": All dependencies available and Issues found, index 1 |
| `WebAppStore.EnhancedAppFields` | platformUI/gui/src/stores/webapp-store.js:20-31 | a record loses `$type`. `displayInfo` is Active/positive/cloud_done iff `active` is truthy, else Inactive/negative/cloud_off. Every other property is unchanged |
| `WebAppStore.EnhancedAppIdempotent` | platformUI/gui/src/stores/webapp-store.js:20-31 | enhancing a record twice equals enhancing it once |
| `WebAppStore.EnhancedShape` | platformUI/gui/src/stores/webapp-store.js:17-33 | the map loses its `$type`, keeps its other keys in order, and holds each record enhanced |
| `WebAppStore.EnhancedDistinct` | platformUI/gui/src/stores/webapp-store.js:17-33 | `enhance` keeps the keys of the deployments map distinct |
| `WebAppStore.EnhanceIdempotent` | platformUI/gui/src/stores/webapp-store.js:17-33 | `enhance` applied twice equals applied once |
| `WebAppStore.Store.constructor` | platformUI/gui/src/stores/webapp-store.js:6-9 | the store starts with an empty map |
| `WebAppStore.Store.WebApps` | platformUI/gui/src/stores/webapp-store.js:12 | the `webApps` getter returns `webAppsJSON` unchanged |
| `WebAppStore.Store.Enhance` | platformUI/gui/src/stores/webapp-store.js:17-33 | the in-place deletes and assignments yield the enhanced map, and the keys stay distinct |
| `WebAppStore.Store.EnhanceRecords` | platformUI/gui/src/stores/webapp-store.js:20-32 | the loop enhances every record in place and keeps keys and order |
| `WebAppStore.Store.UpdateWebApps` | platformUI/gui/src/stores/webapp-store.js:76-98 | a reply (a parsed object, so no key twice) replaces the map and enhances it, and a failed request changes nothing |

## Left out

- Requests, request URLs and the host endpoints behind them: each reply is a parameter, and each request is only a `Request` value or the list of unregistered rows.
- The server-side deployment lifecycle: no file modelled here implements it.
- Timers: the 250 ms and 500 ms intervals, `clearInterval`, promise ordering and React's batching of `setState`. Only the tick step and the completion step are modelled. Two clicks that both pass the guard before a re-render are not modelled.
- Pure UI: markup, the upload and add dialogs (`showUpload`, `showAdd`, `closeUploadModule`, `showAddModule` and its list of available modules), `alert`, `signOut`, the log link, Quasar `notify` and `loading`.
- Portal.AppTable.CloseAddModule: the cancel branch only hides the dialog. Clearing the module input after a duplicate is UI.
- Portal.AppTable.CompleteLoad: for an index the table no longer has, the source throws a TypeError inside the state updater. The model keeps the state and reports `applied` = false.
- Store actions that only call the host and then refresh: `deleteModule` and `resolveModule` in the module store, `deleteModule` in the hosting store, and `registerWebApp`, `unregisterWebApp`, `startWebApp` and `stopWebApp` in the deployments store. Only the refresh (`Update…` with the reply) is modelled.
- Development-mode data: the module store's mock is kept as `DevModules`. The deployment mock is not kept, because its `active` flags are random.
- JSON values: numbers are integers (no fractions or NaN), and a load reply's payload is a string or null. Module records carry only the fields `enhance` and the getters read.
- Object key order: the JSON objects (`JsonObject`) keep insertion order, which matches JavaScript for the non-numeric keys used here. `HostingStore.Store.modulesMap` is a Dafny `map`, which has no key order: the model does not capture that the source's `acc` object lists names in order of first insertion (hosting-store.js:55-62).
- ModuleStore.Store.Enhance, ModuleStore.Store.UpdateModules: require every value other than `$type` to be a module. For any other value (no `dependencies`) the source throws inside `.then` (module-store.js:29). By then `$type` is deleted and the earlier modules are annotated, and `.catch` only shows a notification. The model does not capture that partial update.
- HostingStore.Store.UpdateModules: the reply is typed as a list of module records, each with a `dependentModules` list. For a reply that is not an array the source throws at `.reduce` (hosting-store.js:55), and for an element without `dependentModules` it throws at `.some` (hosting-store.js:57). By then `modulesJSON` already holds the reply (hosting-store.js:107), and `.catch` only shows a notification, so the source ends with the new list and the old map. The model does not capture that state.
- WebAppStore.Store.Enhance, WebAppStore.Store.UpdateWebApps: require every value other than `$type` to be a record. For `null`, a string, a number or a boolean the source throws at the `delete` or the `displayInfo` assignment (webapp-store.js:21-23). The earlier records are then already enhanced. The model does not capture that partial update, nor arrays, which the source would enhance like records.
- `user-store.js`, `App.js`, the navigation bars and `boot/axios.js`: configuration and a mirror of a server reply.
- The Gradle build files: build orchestration, outside this model.
