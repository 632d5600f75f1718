# Location-hierarchy navigation, modelled in Dafny

The application is a single-page map of advertising screens in Iraq.
It is built on a fixed three-level hierarchy, `LOCATIONS`:

- the country `iraq`;
- four provinces, each owning an embedded map;
- five regions (terminals), each with a photo and a list of ad screens.

The user moves through it in three places:

- the map (`MapFrame`): draws pins, picks an embedded map and animates a zoom when it leaves the country;
- the side panel (`FloatingPanel`): lists the current location's children and offers a back button;
- the application shell (`App`): keeps the navigation stack and a focus modal that pages through a region's ad screens.

This project models that engine and proves what it promises.

- `types.dfy` (module `Types`) holds the record shapes. `Truthy` stands for JavaScript truthiness of an optional string.
- `location_tree.dfy` (module `LocationTree`) models `LOCATIONS`:
  - as a sequence of key/location entries in declaration order, so the first-match parent search `Object.values(LOCATIONS).find(...)` is mirrored exactly for a table whose keys are distinct and not integer-like, as in `LOCATIONS` (JavaScript lists integer-like keys first, and a repeated key keeps its first position with its last value; the entry sequence models neither);
  - `Index` is the dictionary view of that sequence;
  - the lookups the components perform;
  - the well-formedness predicate `WellFormed`: keys are ids, keys are unique, children resolve, there is one parent per child, levels descend, regions are leaves, there is one root and every non-root has a parent.
- `constants.dfy` (module `Constants`) is the dataset itself. It proves that the dataset is well formed, that its embeds sit on provinces, and that every region has a photo and at least one ad screen.
- `map_view.dfy` (module `MapView`) holds the map's derived values:
  - `nearestEmbedUrl`, with its upward walk `findParentEmbed`, which ends because each step goes one level up;
  - `visiblePins`;
  - what one click on a pin fires.
- `transition.dfy` (module `Transition`) is the map's level-transition effect.
  - Its state covers the `isZooming` and `isIframeReady` flags, the `prevActiveIdRef` and `timeoutRef` refs, and the set of timers the browser will still fire.
  - It is written both as step functions on a `Frame` value and as the class `MapFrame`, whose methods update the same state in place and are proved equal to the step functions.
- `floating_panel.dfy` (module `Panel`) holds the panel's items, the back button's visibility and label, and its click dispatch.
- `app.dfy` (module `AppState`) is the application shell.
  - The navigation stack is `handleSelect` and `handleBack`.
  - The focus modal is `openZoom`, `closeZoom`, `nextAd` and `prevAd`.
  - Both are written as functions on values and as the class `App`, with imperative handlers proved against those functions.
- `callbacks.dfy` and `session.dfy` (modules `Callbacks` and `Session`) wire the parts together as `App.tsx` does:
  - a click on the map or the panel produces `onSelect`, `onBack` or `onPhotoZoom` callbacks;
  - the shell handles them;
  - the map's controller sees the new `activeId`.
- `scenarios.dfy` (module `Scenarios`) walks the shipped dataset: the first render, selecting Baghdad, moving on before the zoom ends, and the Mansour terminal.

A lateral move during a zoom-in cancels the zoom timer, because the effect's cleanup (components/MapFrame.tsx:83-85) clears the timer named by `timeoutRef` on every `activeId` change, and the lateral branch (components/MapFrame.tsx:79-81) arms none. So `isZooming` stays set, with no pins drawn, until the next move to the country. `Transition.LateralMoveDuringZoomStalls` and `Transition.StallPersists` state the stall, and `Scenarios.NajafBeforeTheTimer` shows it on the dataset.

## Model

| member | source | states |
|---|---|---|
| Types.Truthy | App.tsx:26 | an optional string is truthy iff it is neither `undefined` nor the empty string |
| Types.ChildIds | components/FloatingPanel.tsx:30 | the children list when the `children` field is present, the empty list otherwise |
| LocationTree.WellFormed | constants.ts:3-152 | the well-formedness of the hierarchy; a well-formed table is never empty |
| LocationTree.Index | constants.ts:3-152 | every entry's key is a key of the dictionary, and every dictionary key comes from some entry |
| LocationTree.IndexAt | constants.ts:3-152 | with unique keys, the dictionary returns each entry's location exactly as declared |
| LocationTree.Get | components/FloatingPanel.tsx:24 | `LOCATIONS[id]` is defined exactly when some entry has key `id` |
| LocationTree.FindParent | components/MapFrame.tsx:31 | the search returns nothing iff no location lists the id; otherwise it returns the first location, in declaration order, that lists it |
| LocationTree.FindParentIsTheParent | components/MapFrame.tsx:31 | in a well-formed table the first-match search returns the one location listing the id, whatever the declaration order |
| LocationTree.ParentIsHigher | components/MapFrame.tsx:30-35 | the parent found is stored under its own id and sits strictly higher, so the upward walk terminates |
| LocationTree.ParentOf | components/MapFrame.tsx:47 | every stored non-country location has a parent entry; the search finds it, and it is one level up |
| LocationTree.RootHasNoParent | components/MapFrame.tsx:32 | the country is listed by no location, so the walk stops there |
| LocationTree.ResolveIds | components/MapFrame.tsx:44 | `map(id => LOCATIONS[id]).filter(Boolean)` yields no more locations than ids, each of them the location of one of the ids |
| LocationTree.ResolveIdsAppend | components/MapFrame.tsx:44 | resolving a concatenation of id lists is the concatenation of the resolved parts, so kept locations stay in their given order |
| LocationTree.ResolveIdsOne | components/MapFrame.tsx:44 | a single id yields its location when it is a key and nothing otherwise, so each known id contributes exactly one location |
| LocationTree.ResolveIdsComplete | components/MapFrame.tsx:44 | no id that is a key is dropped by the filter |
| LocationTree.ResolveIdsAllKnown | components/FloatingPanel.tsx:30-32 | when every id is a key, the result has one location per id, in the given order |
| LocationTree.ResolvedIdsMatch | components/MapFrame.tsx:49 | with keys equal to ids, the k-th resolved location carries the k-th id |
| LocationTree.ChildrenResolved | components/MapFrame.tsx:44 | in a well-formed table a location's children all resolve, in declared order, one level further down |
| Constants.EntryKey | constants.ts:4-5 | every key of `LOCATIONS` is its record's `id` and is non-empty |
| Constants.EntryLevel | constants.ts:6 | the first entry is the country and no other entry is; regions have no `children`; every other entry is listed by a parent entry |
| Constants.RootChildren | constants.ts:14 | `iraq` lists exactly four children, each stored under its own key one rank below the country, with `iraq` as the entry that lists it |
| Constants.ProvinceChildren | constants.ts:30 | every child a province lists is stored under its own key as a region, with that province as the entry that lists it |
| Constants.EntryChildren | constants.ts:14 | every listed child is a key one level below the entry that lists it, and no other entry lists it |
| Constants.EntryAssets | constants.ts:28 | an entry has an embed iff it is a province; every region has a photo and a non-empty ad list |
| Constants.LocationsKeys | constants.ts:3-152 | the keys equal the ids, are non-empty and are pairwise distinct |
| Constants.LocationsChildren | constants.ts:14 | every child id is a key, and levels descend one step along every edge |
| Constants.LocationsSingleParent | constants.ts:14 | no id appears in two `children` lists |
| Constants.LocationsShape | constants.ts:3-152 | regions have no `children`, there is exactly one country, and every other node has a parent |
| Constants.LocationsWellFormed | constants.ts:3-152 | the dataset satisfies the well-formedness predicate |
| Constants.RootIsTheOnlyCountry | constants.ts:4-15 | `iraq` is stored as the country record, and a key names a country iff it is `iraq` |
| Constants.RootStored | App.tsx:9 | the initial `activeId` `'iraq'` is a key whose record is the country |
| Constants.AssetPlacement | constants.ts:28 | embeds sit exactly on provinces; every region has a photo and at least one ad screen |
| Constants.MansourHasTwoAds | constants.ts:91-106 | `mansour` is stored under its key and has exactly two ad screens |
| Constants.ProvincesStored | constants.ts:18-73 | the four provinces are stored under their own ids |
| Constants.RegionsStored | constants.ts:76-151 | the five regions are stored under their own ids |
| MapView.NearestEmbedUrl | components/MapFrame.tsx:28-37 | the embed chosen is undefined or truthy, never the empty string |
| MapView.FindParentEmbed | components/MapFrame.tsx:30-35 | the walk is total on a well-formed table, and what it returns is undefined or truthy |
| MapView.EmbedFromParent | components/MapFrame.tsx:29-33 | a location without an embed shows the embed of the location listing it, when that location has one |
| MapView.CountryEmbed | components/MapFrame.tsx:28-37 | in any well-formed table the country shows an embed exactly when it has one of its own, since no location lists it |
| MapView.NearestEmbedByLevel | components/MapFrame.tsx:28-37 | with embeds only on provinces, the country has no embed and a province shows its own |
| MapView.RegionEmbed | components/MapFrame.tsx:28-37 | with embeds only on provinces, a region shows the embed of the province that lists it |
| MapView.PinTarget | components/MapFrame.tsx:46-47 | the target is a key; for a region it is the key of the location listing the region |
| MapView.VisiblePins | components/MapFrame.tsx:39-53 | no pins while zooming; every pin is a stored location |
| MapView.PinsAreChildren | components/MapFrame.tsx:43-49 | at country and province level the pins are all the active location's children, in declared order, one level down |
| MapView.RegionPinsAreSiblings | components/MapFrame.tsx:45-50 | at region level the pins are all the children of the province listing the region, including the region itself, and all are regions |
| MapView.PinClick | components/MapFrame.tsx:128-159 | a click fires exactly one `onSelect(pin.id)`, last; `onPhotoZoom(pin)` is fired, before it, iff the pin is a region with a truthy photo, so two callbacks then and one otherwise |
| MapView.RegionTarget | components/MapFrame.tsx:45-50 | at region level the pins are the resolved children of the province listing the region |
| MapView.StoredRegionZooms | components/MapFrame.tsx:128 | with region photos present, clicking a stored region fires `onPhotoZoom` and then `onSelect` |
| MapView.RegionPinsZoom | components/MapFrame.tsx:126-141 | every region pin drawn opens the focus modal before selecting |
| Transition.ClearTimeout | components/MapFrame.tsx:84 | clearing cancels the timer the ref names, removes no other pending timer and leaves every other field, the ref included, as it was |
| Transition.EffectRun | components/MapFrame.tsx:56-82 | one effect run records the new id, arms at most the one fresh timer `nextTimer` and takes at most one timer id |
| Transition.MountFrame | components/MapFrame.tsx:14-20 | the first render records `activeId`, is not zooming, has no timer, and shows the map exactly below the country |
| Transition.NavigateFrame | components/MapFrame.tsx:55-86 | a render records the new id, does nothing when the id is unchanged, and adds no timer other than a fresh one |
| Transition.FireFrame | components/MapFrame.tsx:68-72 | the fired timer is no longer pending, the zoom is over, the map is shown and the ref is emptied; the recorded id is kept |
| Transition.NavigateAll | components/MapFrame.tsx:55-86 | after a run of renders the controller has recorded the last id; an empty run changes nothing |
| Transition.AtMostOneTimer | components/MapFrame.tsx:20 | under the invariant at most one timer is pending, and never at the country level |
| Transition.MountOk | components/MapFrame.tsx:14-20 | the first render leaves the controller consistent, with the ref on `activeId` and no timer |
| Transition.NavigateOk | components/MapFrame.tsx:55-86 | each render with a new id keeps the invariant: the flags are never both set, both are clear at the country, exactly one is set below it, and the one pending timer is the ref's |
| Transition.FireOk | components/MapFrame.tsx:68-72 | the timer firing keeps the invariant and leaves nothing pending |
| Transition.ZoomInThenFire | components/MapFrame.tsx:63-72 | leaving the country sets zooming, hides the map and arms exactly one fresh timer; its firing ends the zoom and shows the map |
| Transition.ZoomOutIsImmediate | components/MapFrame.tsx:74-78 | reaching the country clears both flags at once, with no timer pending |
| Transition.LateralMoveWhenSettled | components/MapFrame.tsx:79-81 | a move below the country out of a zoom shows the map, with no timer |
| Transition.LateralMoveDuringZoomStalls | components/MapFrame.tsx:79-85 | a move below the country during a zoom cancels its timer and leaves zooming on with nothing pending, so no pins are drawn |
| Transition.StallStep | components/MapFrame.tsx:79-85 | one more move below the country keeps a stalled zoom stalled |
| Transition.StallPersists | components/MapFrame.tsx:79-85 | any run of moves below the country keeps a stalled zoom stalled |
| Transition.MapFrame.constructor | components/MapFrame.tsx:14-20 | the component's first render is the mount step and satisfies the invariant |
| Transition.MapFrame.ClearPendingTimeout | components/MapFrame.tsx:83-85 | the cleanup's effect on the state is exactly `ClearTimeout` |
| Transition.MapFrame.RunEffect | components/MapFrame.tsx:56-82 | the effect body, branch by branch, changes the state exactly as `EffectRun` |
| Transition.MapFrame.Navigate | components/MapFrame.tsx:55-86 | a render runs cleanup then effect only for a new id, as `NavigateFrame`, and keeps the invariant |
| Transition.MapFrame.FireTimer | components/MapFrame.tsx:68-72 | the timer callback changes the state exactly as `FireFrame` and keeps the invariant |
| Panel.Items | components/FloatingPanel.tsx:30-32 | an id that is not a key has no items |
| Panel.ItemsAreChildren | components/FloatingPanel.tsx:30-32 | in a well-formed table the items are all the current location's children, in declared order, one level down |
| Panel.BackLabel | components/FloatingPanel.tsx:75-83 | the back button is there iff the history is non-empty; its label is never empty, and is "Previous" when the top entry is not a key or has an empty name |
| Panel.ItemClick | components/FloatingPanel.tsx:91 | clicking an item fires one callback, `onSelect` with that item's id |
| Panel.BackClick | components/FloatingPanel.tsx:78 | clicking the back button fires one callback, `onBack` |
| Panel.BackLabelNamesPrevious | components/FloatingPanel.tsx:81 | the label is the name of the location on top of the history, when that id is a key with a name |
| Panel.Render | components/FloatingPanel.tsx:34 | the panel renders nothing iff the current id is not a key; otherwise it shows the items and the back label |
| AppState.SelectNav | App.tsx:15-22 | `handleSelect(id)` always leaves `id` active; the history grows by the old active id, with the mode set for `id`'s level, exactly when `id` differs, and is otherwise unchanged |
| AppState.LastEntry | App.tsx:25 | the last history entry exists iff the history is non-empty, and the history ends with it |
| AppState.BackNav | App.tsx:24-33 | `handleBack()` keeps a prefix of the history; when it changes anything it pops one entry, makes that entry active and sets the mode for its level |
| AppState.OpenModal | App.tsx:35-38 | `openZoom(loc)` shows `loc`'s ad screens from index 0, which is in range whenever the location can be shown |
| AppState.CloseModal | App.tsx:40 | `closeZoom()` hides the modal, keeps the index and shows no ads |
| AppState.NextAdModal | App.tsx:42-45 | `nextAd()` keeps the zoomed location, does nothing without ads, and leaves an index inside the ad list |
| AppState.PrevAdModal | App.tsx:47-50 | `prevAd()` keeps the zoomed location, does nothing without ads, and leaves an index inside the ad list |
| AppState.ModeFor | App.tsx:20-21 | the view mode set is never `'projects'`, and is `'national'` iff the level is the country |
| AppState.KeyIsTruthy | App.tsx:26 | every key is truthy, so a history entry always passes the back guard |
| AppState.InitialNavOk | App.tsx:9-11 | the initial navigation state is consistent: `'iraq'` active, no history, national view |
| AppState.SelectOk | App.tsx:15-22 | a select keeps the navigation consistent: ids are keys, the mode matches the active level, and no entry repeats its neighbour |
| AppState.BackOk | App.tsx:24-33 | a back keeps the navigation consistent |
| AppState.SelectSetsMode | App.tsx:19-21 | after a select the view mode is `'national'` iff the new location is the country, and never `'projects'` |
| AppState.SelectThenBack | App.tsx:15-33 | a select to another location followed by a back restores `activeId`, `history` and `viewMode` |
| AppState.SelectIdempotent | App.tsx:16 | selecting the active id changes nothing, so a repeated select is a single one |
| AppState.BackMovesIffHistory | App.tsx:24-33 | back changes the state iff there is history, and then it pops exactly one entry |
| AppState.Step | App.tsx:15-33 | one navigation event keeps the state consistent |
| AppState.Run | App.tsx:15-33 | any run of navigation events keeps the state consistent |
| AppState.HistoryAccounting | App.tsx:15-33 | the history length is the starting length plus effective selects minus effective backs |
| AppState.OpenOk | App.tsx:35-38 | opening shows the location from screen 0, which exists |
| AppState.CloseOk | App.tsx:40 | closing hides the modal and keeps the index |
| AppState.StepsStayInRange | App.tsx:42-50 | both carousel steps keep the index inside the ad list, and are no-ops without a location or an `ads` field |
| AppState.PrevUndoesNext | App.tsx:42-50 | `prevAd` undoes `nextAd` and `nextAd` undoes `prevAd` |
| AppState.WrapSteps | App.tsx:44-49 | on `[0, n)` the wrap-around steps stay in range and are each other's inverse |
| AppState.NextAdTimesWraps | App.tsx:42-45 | `k` presses of `nextAd` move the index `k` screens forward modulo the number of screens |
| AppState.MansourCarousel | App.tsx:42-50 | on `mansour`'s two screens, three `nextAd` from 0 reach 1 and one `prevAd` from 0 reaches 1 |
| AppState.App.constructor | App.tsx:9-13 | the first render: `'iraq'` active, no history, national view, no modal, index 0, consistent |
| AppState.App.HandleSelect | App.tsx:15-22 | the handler updates the navigation exactly as `SelectNav`, leaves the modal alone and keeps consistency |
| AppState.App.HandleBack | App.tsx:24-33 | the handler updates the navigation exactly as `BackNav`, leaves the modal alone and keeps consistency |
| AppState.App.OpenZoom | App.tsx:35-38 | the handler sets the zoomed location and resets the index, leaving navigation alone |
| AppState.App.CloseZoom | App.tsx:40 | the handler clears the zoomed location only |
| AppState.App.NextAd | App.tsx:42-45 | the handler advances the index with wrap-around as `NextAdModal`, keeping it in range |
| AppState.App.PrevAd | App.tsx:47-50 | the handler steps the index back with wrap-around as `PrevAdModal`, keeping it in range |
| Session.Dispatch | App.tsx:60-77 | every callback the map or panel fires keeps the shell, the modal and the map's controller consistent and in step |
| Session.DispatchAll | components/MapFrame.tsx:137-141 | a click's callbacks, delivered in order, keep the screen consistent |
| Session.PanelItemIsChild | components/FloatingPanel.tsx:88-91 | an item's id is a child key of the current location, one level down, never the current id |
| Session.PanelItemThenBack | components/FloatingPanel.tsx:75-91 | clicking an item selects exactly it and pushes the current id; the back button then restores the navigation |
| Session.RegionPinFacts | components/MapFrame.tsx:126-128 | a region pin is a stored region with a photo and at least one ad screen |
| Session.RegionPinClick | components/MapFrame.tsx:137-141 | clicking a region photo opens the modal on it from screen 0 and makes it active |
| Scenarios.SelectBaghdadFromStart | App.tsx:15-22 | selecting Baghdad from the first render pushes `'iraq'` and switches to the province view |
| Scenarios.BackToTheCountryLabel | components/FloatingPanel.tsx:81 | with `'iraq'` on the history the back label is "Republic of Iraq" |
| Scenarios.BaghdadZoom | components/MapFrame.tsx:63-72 | the controller starts settled on the country, arms timer 1 on Baghdad, and shows the map when it fires |
| Scenarios.NajafBeforeTheTimer | components/MapFrame.tsx:79-85 | moving to Najaf before timer 1 fires cancels it and leaves the zoom stalled |
| Scenarios.EmbedsOnTheWay | components/MapFrame.tsx:28-53 | the country has no embed and four pins; Baghdad shows its own embed |
| Scenarios.MansourUsesBaghdadsMap | components/MapFrame.tsx:28-37 | the Mansour terminal shows Baghdad's embedded map |

## Left out

- Display-only fields are not carried: `subtitle`, `description`, `originalUrl`, the ad screens' `imageUrl` and `description`, the floating-point `lat`/`lng`, and the `coords` used for CSS transforms (`terrainStyle`). URLs are opaque strings.
- The markup, CSS classes, animation delays and opacity transitions of all three components are not modelled. Only what they derive from state is.
- Real time and React's render and effect scheduling are not modelled. Each `activeId` change is one cleanup-then-effect step, a timer is an id in a set of pending timers, and firing is an explicit event; the 1500 ms delay is kept only as the constant `Transition.ZoomDelayMs`.
- The 100 ms `hasEntered` entry timer of the map (components/MapFrame.tsx:22-26) is cosmetic and left out.
- The pins and embed drawn during the render that precedes the effect (when `isZooming` still holds its previous value) are not modelled. `VisiblePins` is always evaluated with the flag the effect leaves.
- The panel's `isCollapsed` and `isMounted` toggles are left out as UI-only state.
- The panel's mode toggles (components/FloatingPanel.tsx:56-71) are inert: `setViewMode` is received but never called. The `Callback` datatype therefore has no view-mode callback, and the view mode changes only through `handleSelect` and `handleBack`.
- `components/Navbar.tsx` and `components/Sidebar.tsx` are static presentation and are not part of this model.
- AppState.App.HandleSelect: requires `id` to be a key, because the source reads `LOCATIONS[id].level` and would throw for an unknown id. Every id the components pass is a key.
- AppState.App.OpenZoom: requires a location with an `ads` field to have at least one screen, because the modal reads `ads[currentAdIndex]` at once (App.tsx:97). With zero screens `nextAd` and `prevAd` would also compute `% 0`. Every region of the dataset has screens.
- LocationTree.Get: ids are assumed not to be names of `Object.prototype` members. On the object literal, `LOCATIONS['constructor']`, `'toString'` or `'__proto__'` would return an inherited, truthy value where `Get` returns `None`; this would also change `Panel.Render` and `Panel.BackLabel` for such ids. Every id the program passes is a key, so none of them is such a name.
- AppState.NextAdModal and AppState.PrevAdModal use Dafny's Euclidean `%`. It agrees with JavaScript's `%` here because both operands are non-negative.
- MapView.NearestEmbedUrl: requires a well-formed table, which guarantees that the upward walk terminates. On a cyclic table the source would recurse without end.
- Transition.EffectRun: the early return for an unknown previous id (components/MapFrame.tsx:58-61) records the id, but the model does not capture that this path also returns no cleanup, so the next change would not clear a timer; `NavigateFrame` always clears it. The path is unreachable, since every id the controller sees is a key.
- The timers cancelled by the cleanup are modelled as removed from the pending set. `timeoutRef` keeps naming a cancelled timer, as in the source, since the cleanup does not reset it.
