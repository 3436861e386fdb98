# UWshop storefront core, modelled in Dafny

UWshop is a small storefront. An Express server (`server.js`) keeps a product catalog in
`products.json`, a maintenance flag in `maintenance.json` and an announcement in
`announcement.json`, and it records admin actions in an in-memory operation log of at most 100
entries. The page script (`js/main.js`) fetches the catalog and renders every product that is not
hidden, with a status label and CSS classes.

This project models that logic. File contents and the log are the state. Each file operation is an
input or a result.

- `wrappers.dfy`, module `Wrappers`: the `Option` type. `None` is a read that failed.
- `js_values.dfy`, module `JsValues`: the JavaScript values a handler can read from parsed JSON,
  their truthiness, `!!`, `||`, `startsWith`, and the decimal text of an integral number. That text
  comes with a parser proved to read it back.
- `op_log.dfy`, module `OpLog`: `ogLog` and the `logs` array, as the class `OperationLog`. `Pushed`
  is the effect of one call, and `Replay` is a run of calls. Lemmas cover the cap and the
  newest-first order.
- `catalog.dfy`, module `Catalog`: the list work inside the product handlers. That is
  `findIndex`/`find` by `id` (first match wins), the status overwrite, and the `splice` delete.
  Lemmas cover idempotence, lookups after a push or an update, and delete undoing a push.
- `site_state.dfy`, module `SiteState`: the maintenance middleware, and the readers and writers of
  the maintenance flag and the announcement, with their fail-open defaults.
- `server.dfy`, module `Server`: the class `Shop`. Its fields hold the three files, and a constant
  holds the operation log. Each POST, DELETE and factory-reset handler is a method that states the whole new state:
  which file changes, what is logged, and the 404 and 500 paths. Each GET handler is a function of
  the fields.
- `storefront.dfy`, module `Storefront`: `loadProducts`. Its `forEach` is a loop that builds a
  sequence of `Item` records (texts and class lists in place of DOM nodes). Lemmas cover the hidden
  filter, the label mapping and the class conditions.

Points where the code behaves in ways a reader might not expect, all modelled as the code has them:

- GET `/api/maintenance` answers `config.maintenance` as stored, not coerced to a boolean.
  `Shop.GetMaintenance` returns the raw value. Only a failed read becomes `false`.
- POST `/api/maintenance` reads `maintenance.json` before writing it. When the file cannot be read,
  the answer is 500 and nothing is stored (`Shop.SetMaintenance`). This is not limited to write
  failures.
- The log messages are the Chinese texts the handlers build. An insert of a product with an empty
  name logs `未命名商品`.
- `server.js` has no authentication, registration, login or role checks, so none is modelled.
- The gate tests plain text prefixes, so a path such as `/apiary` or `/administrator` also bypasses
  maintenance mode (`SiteState.Bypasses`).

## Model

| member | source | states |
|---|---|---|
| `OpLog.Pushed` | server.js:22-25 | After one call, the new entry is at index 0 and each old entry sits one index later. The length grows by one below the cap of 100 and stays the same at the cap, so the old last entry drops out. |
| `OpLog.ReplayBounded` | server.js:19-25 | A log that starts with at most 100 entries still has at most 100 after any number of calls. |
| `OpLog.ReplayFromEmpty` | server.js:18-25 | From the empty log, after n calls the log holds min(n, 100) entries. Entry i is the i-th most recent one. |
| `OpLog.OverflowDropsOldest` | server.js:18-25 | After 101 calls from empty: the length is 100, the head is the 101st entry, index i holds entry 101-i, and the first entry is gone (when no later call logged the same text). |
| `OpLog.Entry` | server.js:22 | The entry is `[`, the time, `] `, then the message, at positions fixed by the time's length. |
| `OpLog.EntryRoundTrip` | server.js:21-22 | For a time that contains no `]`, as a locale time string does not, the text between `[` and the first `]` is the time, and what follows the first `] ` is the message. |
| `OpLog.EntryInjective` | server.js:21-22 | For times that contain no `]`, as a locale time string does not, equal entries have equal times and equal messages. |
| `OpLog.OperationLog.constructor` | server.js:18 | The log starts empty. |
| `OpLog.OperationLog.Log` | server.js:20-26 | `ogLog(message)` turns the entries into `Pushed(old, "[time] message")` and keeps them within the cap. |
| `Catalog.FindIndex` | server.js:107 | Returns the index of the first product with the id, and nothing before it has the id. None exactly when no product has it. |
| `Catalog.FirstMatchUnique` | server.js:87 | An id has at most one first match, so `find` and `findIndex` agree. |
| `Catalog.UpdateStatus` | server.js:87-90 | None exactly when no product has the id. Otherwise the length is unchanged. The first match gets exactly the given status with its other fields kept, and every other product is unchanged. |
| `Catalog.Remove` | server.js:107-110 | None exactly when no product has the id. Otherwise the first match is the product removed, the rest is the list without that index in the same order, the length drops by one, and the removed product plus the rest form the same multiset as the input. |
| `Catalog.FindIndexDependsOnIdsOnly` | server.js:87 | Two lists whose ids agree position by position give the same lookup result for every id. |
| `Catalog.UpdateStatusIdempotent` | server.js:87-90 | Setting the same status twice gives the same list as setting it once. |
| `Catalog.UpdateStatusKeepsLookups` | server.js:87-90 | After a status update, every id is found where it was before. |
| `Catalog.FindIndexAfterPush` | server.js:67-68 | After `push(p)`, ids found before are found at the same index. An id missing before is found at the new last index exactly when it is p's id. |
| `Catalog.RemoveUndoesPush` | server.js:68-110 | Deleting the id of a product just pushed, when no earlier product had that id, removes that product and gives back the list as it was. |
| `Catalog.RemoveAfterUpdateStatus` | server.js:87-110 | A status update does not change what a later delete of the same id leaves. |
| `JsValues.DoubleNot` | server.js:135 | `!!v` is a boolean that is true exactly when `v` is truthy. |
| `JsValues.NatText` | js/main.js:47 | The decimal text of a non-negative number is non-empty, all digits, and has no leading zero unless the number is 0. |
| `JsValues.NatTextRoundTrip` | js/main.js:47 | Parsing the decimal text of a non-negative number gives the number back. |
| `JsValues.NumberTextRoundTrip` | js/main.js:47 | The price text is an optional minus sign followed by digits, and it parses back to the price. |
| `SiteState.Bypasses` | server.js:30-31 | Every path that skips the maintenance check starts with `/a`. |
| `SiteState.BypassesAnyExtension` | server.js:30-31 | The check is a plain text prefix: any path that extends a bypassing path, such as `/apiary`, bypasses too. |
| `SiteState.Gate` | server.js:29-47 | A request gets the maintenance notice exactly when its path starts with neither `/api` nor `/admin`, the file was read and is a JSON object, and its `maintenance` property is truthy. A missing, unreadable or non-object file counts as off. |
| `SiteState.GetMaintenance` | server.js:122-129 | An unreadable file answers `false`. A non-object document answers undefined. Otherwise the answer is the stored property, uncoerced. |
| `SiteState.GateAgreesWithGetMaintenance` | server.js:33-39 | On every path the gate filters, it blocks exactly when GET `/api/maintenance` reports a truthy value. |
| `SiteState.SetMaintenance` | server.js:131-136 | Fails exactly when the file cannot be read. An object document gets a boolean that is true exactly when the requested value is truthy. Any other document is written back unchanged. |
| `SiteState.MaintenanceRoundTrip` | server.js:131-136 | After a successful set on an object document, GET answers `!!requested`, and the gate blocks the filtered paths exactly when the request was truthy. |
| `SiteState.MaintenanceSetOnNonObjectIsLost` | server.js:33-39 | On a document that is not an object, a set succeeds but stores nothing: GET still answers undefined and the gate stays open. |
| `SiteState.MaintenanceMessage` | server.js:138 | The log message is `維護模式：ON` exactly when the request is truthy, and `維護模式：OFF` exactly when it is not. |
| `SiteState.GetAnnouncement` | server.js:165-172 | The answer is the stored text when that text was read and is truthy. It is `""` when the file is unreadable or the text is falsy. |
| `SiteState.AnnouncementNeverFails` | server.js:165-172 | The announcement answer is always either truthy or `""`. |
| `SiteState.AnnouncementRoundTrip` | server.js:175-178 | Reading back a posted announcement gives the posted value when it is truthy and `""` otherwise. Any posted string comes back unchanged. |
| `SiteState.TemplateText` | server.js:179 | A string is interpolated as it is, and `undefined` as that word. A number becomes sign-and-digits text that parses back to the number. |
| `SiteState.AnnouncementMessage` | server.js:179 | The log message is `公告更新：` followed by the posted value's text. A posted string appears as it is. |
| `Server.InsertMessage` | server.js:73 | The message is `新增商品：` followed by the product's name, or by `未命名商品` when the name is empty. |
| `Server.StatusMessage` | server.js:95 | The message is `商品上下架：` followed by the name, ` → ` and the new status. |
| `Server.DeleteMessage` | server.js:115 | The message is `刪除商品：` followed by the removed product's name. |
| `Server.Shop.constructor` | server.js:18 | The files start as found on disk, and the log starts empty. |
| `Server.Shop.Gate` | server.js:29-47 | The middleware decision for a path, from the current maintenance file. |
| `Server.Shop.GetProducts` | server.js:54-59 | Returns the whole stored list, hidden and sold products included. Returns 500 exactly when the file cannot be read. |
| `Server.Shop.AddProduct` | server.js:62-77 | The product is appended unchanged at the end, logged and answered. When the file cannot be read or written, the answer is 500, no file changes and nothing is logged. |
| `Server.Shop.SetStatus` | server.js:80-99 | The read fails: 500. The id is absent: 404, and the list is unchanged. Otherwise the list becomes `UpdateStatus`'s list, the updated product is answered and the change is logged. A failed write gives 500 and nothing changes. |
| `Server.Shop.DeleteProduct` | server.js:102-119 | The read fails: 500. The id is absent: 404, and the list is unchanged. Otherwise the list becomes `Remove`'s rest, and removing the product is logged. A failed write gives 500 and nothing changes. |
| `Server.Shop.FactoryReset` | server.js:151-160 | Stores the empty list without reading the file first, and logs the reset. A failed write gives 500 and nothing changes. |
| `Server.Shop.GetMaintenance` | server.js:122-129 | Never fails. An unreadable file gives `false`, and a non-object document gives undefined. Otherwise it answers the stored property. |
| `Server.Shop.SetMaintenance` | server.js:131-143 | Succeeds exactly when the file is read and written. On success it logs ON or OFF by the request's truthiness. An object document gets `!!requested`, and any other document stays as it was. Otherwise it answers 500 and nothing changes. |
| `Server.Shop.GetAnnouncement` | server.js:165-172 | Never fails. A truthy stored text is answered as it is. An unreadable file or a falsy text answers `""`. |
| `Server.Shop.SetAnnouncement` | server.js:175-185 | Stores the posted value without reading the file, and logs it. A failed write gives 500 and nothing changes. |
| `Server.Shop.GetLogs` | server.js:146-148 | Answers the log, newest first, never more than 100 entries. |
| `Storefront.Label` | js/main.js:37-40 | The label is always one of `可購買`, `洽談中` and `已售出`, and it is `可購買` for "available". |
| `Storefront.AddIf` | js/main.js:26-46 | `classList.add` under a condition: the result holds the old classes, plus the new one exactly when the condition holds. The old classes stay first, in order. |
| `Storefront.AddIfPresent` | js/main.js:26-46 | Adding a class that is already in the list changes nothing, as with `classList.add`. |
| `Storefront.Render` | js/main.js:18-47 | The item shows the product's own name and note, `狀態：` followed by the label, and `NT$ ` followed by the price. The status and price elements carry their base classes first. |
| `Storefront.LabelCases` | js/main.js:37-40 | The label is `可購買` exactly for "available" and `洽談中` exactly for "reserved". It is `已售出` for every other status, unknown values included. |
| `Storefront.RenderShows` | js/main.js:24-47 | The title and note are the product's own. The status text is `狀態：` followed by the label, and the price text is `NT$ ` followed by the price. `sold` is on the title, note, status and price elements exactly when the status is "sold". `reserved` is on the status element exactly when the status is "reserved". |
| `Storefront.UnknownStatusLooksSoldButIsNotStyled` | js/main.js:26-46 | A status outside the four known ones shows `已售出` but gets no `sold` class on any element. |
| `Storefront.Visible` | js/main.js:15-16 | The products kept are no more than the input, and none of them is hidden. |
| `Storefront.VisibleAppend` | js/main.js:15-16 | Skipping hidden products commutes with concatenation, so the relative order is kept. |
| `Storefront.VisibleMembers` | js/main.js:15-16 | A product is kept exactly when it is in the list and its status is not "hidden". |
| `Storefront.VisibleWithoutHidden` | js/main.js:15-16 | A list with no hidden product is kept whole and in order. |
| `Storefront.LoadProducts` | js/main.js:1-52 | A failed fetch or parse shows the failure paragraph. Otherwise there is one item per product that is not hidden, in input order, and item i renders the i-th such product. |

## Left out

- File I/O (`fs.readFile`, `readFileSync`, `writeFile`, `writeFileSync`) is not modelled as I/O. A file's contents are a field of `Shop`, `None` is a read that failed, and `writeOk` says whether the write succeeded. A failed write is modelled as leaving the file as it was.
- JSON parsing and serialization are not modelled. maintenance.json is held as a `Config`: an object with its `maintenance` property, or any other non-null document. announcement.json is held as the `data.text` value, and products.json as its array. For the maintenance and announcement files, a parse failure or a property read on `null` throws. The source catches both, so they land in the same `None` as a failed read.
- An unparseable `products.json` makes `JSON.parse` throw inside a `readFile` callback. That is an uncaught exception, not a 500, and it is not modelled.
- Other fields of `maintenance.json` that `POST /api/maintenance` carries over are not modelled. Only `maintenance` is.
- Express plumbing (routing, `cors`, `bodyParser`, `express.static`, status codes beyond 404/500, response bodies and the maintenance HTML) is not modelled. Handlers answer with the `Reply` datatype.
- Concurrency is not modelled. Each handler is one atomic step, so the lost update between two interleaved read-modify-write requests is not modelled.
- The timestamp from `new Date().toLocaleString(...)` is an opaque string parameter of `Log`. `console.log` and `console.error` are left out.
- `Catalog.Product`: `id`, `name`, `note` and `status` are strings, and `price` is an integer. Neither the inserted body nor the posted `status` of a status update is validated, so any of these fields, and the `status` parameter of `Catalog.UpdateStatus` and `Shop.SetStatus`, can be missing or of another type in the source. The model does not cover those cases. Examples: the log text `undefined` for a missing name at server.js:95 and 115, and a missing posted status at server.js:82 and 90, whose key `JSON.stringify` drops and which server.js:95 logs as `→ undefined`; a JSON number id that never equals the string path parameter, non-integral prices, and the exponent form of large numbers.
- `JsValues.Value`: `Composite` stands for a plain object (truthy, text `[object Object]`). Arrays, whose text is their joined elements, are not distinguished, and NaN is not modelled.
- `Storefront.LoadProducts`: DOM construction, `fetch` and `res.json()` are left out. A failed fetch or parse is the `None` input. The `item` and `info` wrapper elements carry only fixed classes and are not part of `Item`.
- Authentication, registration, login, tokens and role checks are not modelled, because the shown `server.js` has none.
- `app.listen` and the port are not modelled. They are process startup.
