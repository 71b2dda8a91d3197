# Peak map front end: list bookkeeping and the peak editor

This project models the logic of a browser map of mountain peaks. The map
component keeps a list of peaks. It adds a peak after a create, filters one
out after a delete, is meant to replace one after an update (as written it
drops it), and merges the peaks of
the visible area on every pan or zoom. Peaks it already holds win over
reloaded copies. A one-shot flag makes the first load happen once. A
pending marker holds the clicked position while a new peak is drafted. Each
marker has an editor popup with the state `editing`, `name` and `altitude`,
and one handler per button and per input field.

Modules:

- `Peaks` (peaks.dfy): the peak record (`id` optional), the outcome of a
  server call (`Ok(body)`, `NotOk`, `Failed`), and the id bookkeeping
  `Ids`, `UniqueIds` and `Count`.
- `PeakStore` (peak_store.dfy): the list transformations as pure functions
  (`Without`, `NewArrivals`, `Merge`, `Replace`, `UpdatedAsWritten`) and the
  lemmas about them.
- `Panel` (panel.dfy): the `PeakPanel` class, with one method per handler,
  and `Upserted`, the record a Save sends. A handler's calls to the popup's
  callbacks are returned as a sequence of `Callback` values.
- `MapComponent` (map_component.dfy): the `PeakMap` class (`peaks`,
  `initialized`) and the `LocationMarker` class (`position`). Every server
  call is a parameter holding its outcome. `CreationScenario` chains a
  click, an edit, a Save, a successful create and a reload.

The code behaves as follows in places a reader might not expect:

- An editor is in creation mode when `peak.id` is falsy. That means an
  absent id or the number 0 (`IsCreating`).
- A stored peak's marker gives its editor only the update and delete
  callbacks; the pending marker gives only create and cancel (`Owner`). An
  editor that calls a callback it was not given throws. A stored peak with
  a falsy id therefore opens in creation mode, and its Save throws, sends
  nothing and stays in editing (`FalsyIdScenario`).
- Cancel in update mode leaves the draft `name` and `altitude` as they
  were. It does not restore the stored values.
- The reload handler never looks at the response status. Any body that
  decodes to an array is merged (`ListResponse`).
- A create appends the server's record without checking its id. So unique
  ids are not an invariant of the class. They are proved preserved under
  the conditions the code needs (`AppendUnique`, `MergeUnique`,
  `WithoutUnique`, `ReplaceUnique`).
- A successful update, as written, drops the updated peak (see Findings).
  `PeakMap.OnUpdate` uses the intended replace.

## Model

| member | source | states |
|---|---|---|
| Peaks.UniqueCount | src/Map.js:147-148 | in a list with unique ids, a server-assigned id occurs once if present and not at all otherwise |
| PeakStore.Without | src/Map.js:118 | the delete filter keeps exactly the entries whose id differs from the deleted one, and never lengthens the list |
| PeakStore.WithoutAbsent | src/Map.js:118 | deleting an id the list does not hold leaves the list identical |
| PeakStore.WithoutAppend | src/Map.js:118 | the filter distributes over concatenation, so kept entries keep their order |
| PeakStore.WithoutCount | src/Map.js:118 | the filter removes exactly the entries with that id, and none with that id remain |
| PeakStore.WithoutUnique | src/Map.js:118 | deleting keeps ids unique |
| PeakStore.DeleteRemovesOne | src/Map.js:113-124 | with unique ids, deleting a present id shortens the list by one, and deleting an absent id by none |
| PeakStore.AppendUnique | src/Map.js:80 | appending the created record keeps ids unique if and only if its id is new to the list |
| PeakStore.Replace | src/Map.js:103 | the intended update: the returned record is last, and otherwise exactly the old entries without the request's id remain |
| PeakStore.ReplaceExactlyOne | src/Map.js:100-103 | after the intended update, exactly one entry carries the updated id |
| PeakStore.ReplaceUnique | src/Map.js:103 | the intended update keeps ids unique |
| PeakStore.UpdatedAsWritten | src/Map.js:103 | as written, a successful update leaves exactly the old entries without the request's id |
| PeakStore.UpdateAsWrittenDropsPeak | src/Map.js:103 | as written, the returned record is not in the list, no entry carries its id, and the list is shorter than under the intended replace |
| PeakStore.UpdateAsWrittenExample | src/Map.js:103 | renaming the only peak empties the list as written, and yields the renamed peak under the intended replace |
| PeakStore.NewArrivals | src/Map.js:147-148 | the incoming peaks kept are exactly those whose id is not already known |
| PeakStore.NewArrivalsAppend | src/Map.js:148 | the selection of new arrivals distributes over concatenation, so incoming order is kept |
| PeakStore.NewArrivalsUnique | src/Map.js:148 | a batch with unique ids yields arrivals with unique ids |
| PeakStore.NoArrivals | src/Map.js:147-148 | a batch whose ids are all known adds nothing |
| PeakStore.Merge | src/Map.js:147-148 | the old list stays unchanged and in place as a prefix; every added entry comes from the batch with an id the old list lacks; every such batch entry is added; an entry with a known id is an old one (first seen wins) |
| PeakStore.ConcatUnique | src/Map.js:148 | two unique lists with disjoint ids concatenate to a unique list |
| PeakStore.MergeUnique | src/Map.js:147-148 | a unique list merged with a unique batch has unique ids |
| PeakStore.MergeKeepsBatchDuplicates | src/Map.js:148 | a batch holding the same peak twice puts it in twice, so batch uniqueness is needed |
| PeakStore.MergeIdempotent | src/Map.js:147-148 | reloading the same batch a second time changes nothing |
| PeakStore.MergeExample | src/Map.js:147-148 | with peak 1 known, a batch of a renamed peak 1 and a peak 2 adds only peak 2 |
| Panel.Upserted | src/Panel.js:91 | the saved record has the edited name and altitude, and the peak's own id, lat and lon |
| Panel.UpsertedUnchanged | src/Panel.js:91 | saving unedited fields sends the peak itself |
| Panel.PeakPanel.constructor | src/Panel.js:7-10 | the editor starts editing iff the peak's id is falsy, with the peak's name and altitude as draft, and remembers which marker opened it |
| Panel.PeakPanel.ChangeName | src/Panel.js:12-14 | the name field takes the typed value, and nothing else changes |
| Panel.PeakPanel.ChangeAltitude | src/Panel.js:16-18 | the altitude field takes the typed value, and nothing else changes |
| Panel.PeakPanel.Cancel | src/Panel.js:80-85 | leaves editing, keeps the draft, and calls the cancel callback only in creation mode and only when the owner gave one (otherwise the call throws after editing was left) |
| Panel.PeakPanel.Save | src/Panel.js:90-98 | picks create with the upserted peak in creation mode and update otherwise; if the owner gave that callback, makes exactly that one call and leaves editing, else throws before leaving editing and sends nothing |
| Panel.PeakPanel.Update | src/Panel.js:110-112 | enters editing with the draft untouched |
| Panel.PeakPanel.Delete | src/Panel.js:105-107 | makes one delete call with the peak's id when the owner gave a delete callback, none otherwise, and changes no local state |
| MapComponent.PeakMap.constructor | src/Map.js:64-65 | the list starts empty and not initialized |
| MapComponent.PeakMap.LoadPeaks | src/Map.js:131-153 | a decoded batch is merged; a failure leaves the list unchanged; unique ids are kept when the batch is unique |
| MapComponent.PeakMap.OnRefresh | src/Map.js:127-129 | a pan or zoom reloads whatever the flag is, and leaves the flag alone |
| MapComponent.PeakMap.Init | src/Map.js:155-161 | a load is issued iff the flag was unset; afterwards the flag is set |
| MapComponent.PeakMap.OnCreate | src/Map.js:67-88 | on success the server's record is appended after the unchanged old list; otherwise nothing changes |
| MapComponent.PeakMap.OnUpdate | src/Map.js:90-111 | on success the intended replace; otherwise nothing changes; unique ids are kept when the record has the request's id |
| MapComponent.PeakMap.OnDelete | src/Map.js:113-125 | on success every entry with the id is filtered out; otherwise nothing changes; unique ids are kept |
| MapComponent.LocationMarker.constructor | src/Map.js:24 | no position is pending at first |
| MapComponent.LocationMarker.PendingPeak | src/Map.js:51-57 | a pending peak exists iff a position is set; it has no id (creation mode), empty name and altitude, and the clicked coordinates |
| MapComponent.LocationMarker.Click | src/Map.js:31-34 | a click sets the pending position |
| MapComponent.LocationMarker.OnCancel | src/Map.js:26-28 | cancel clears the pending position |
| MapComponent.LocationMarker.OnMarkerCreate | src/Map.js:46-49 | clears the pending position and hands the peak once to the create handler, whose outcome decides the list |

## Left out

- HTTP: `fetch`, headers, JSON encoding and decoding, the endpoint built from environment values, and the request body. Each call is a parameter holding its outcome. The body a create sends does not affect the list, because only the server's reply is stored; of the body an update sends, only its id matters (it selects the entries filtered out).
- The bounding-box query string and `toFixed(4)` formatting of clicked coordinates. They are floating-point values from the map library. `PendingPeak` carries the clicked coordinates unrounded.
- Asynchrony: handlers that read a stale `peaks` list, and responses that arrive out of order or overlap. Each handler is modelled as applying its outcome to the current list in one step.
- Rendering by the map library: tiles, markers and popups, `flyTo`, zoom, and the `locationfound` event. The unmounting of the pending editor when its position is cleared is left out too.
- Logging of failures to the console.
- Panel.PeakPanel.constructor: fixes the editor's peak for the editor's lifetime. In the code the peak is a prop read again on every render while the draft state persists, and stored markers are keyed by list index, so after a delete shifts the list a mounted editor can show the next peak with the removed peak's draft, and a second click moves the pending marker under the same draft. This comes from rendering and is not modelled.
- The application shell's error boundary. It holds a single flag that React sets and has no logic of its own.
- MapComponent.PeakMap.OnUpdate: models the intended replace, not the code as written. The as-written result is `PeakStore.UpdatedAsWritten` (see Findings).

## Findings

| source | as written | input that shows it | evidently intended | confidence | as-written member | corrected member |
|---|---|---|---|---|---|---|
| src/Map.js:103 | `setPeaks(...[filtered, payload])` passes the server's record as a second argument, which a state setter ignores, so the list becomes the filtered list alone | list `[{id: 1, name: "A"}]`, update of peak 1 to name "C" answered ok with `{id: 1, name: "C"}`: the list becomes `[]` | the filtered list with the server's record appended, so the list holds exactly one entry with that id | high (not executed) | PeakStore.UpdateAsWrittenDropsPeak | PeakStore.ReplaceExactlyOne |
