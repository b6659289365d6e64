# DetachedTabs, modelled in Dafny

`DetachedTabs` is a Vaadin widget: a strip of tab buttons whose sheet is an
external component container, so the strip and the sheet can sit anywhere in
a layout. This project models its core, stripped of rendering, in two
matching forms:

- `TabStrip` (`tab_strip.dfy`) is the widget's state as a value. That state
  is the orientation, the strip's own size and classes, the tab buttons in
  insertion order, the map from each button (by position) to its content,
  the shown tab and the sheet's contents. Each operation is one function from
  the old state to the new. `Inv` is the invariant of the tab bookkeeping.
  `Projected` says the sheet holds exactly the shown tab's content. `Run`
  plays a sequence of calls.
- `TabStripProperties` (`tab_strip_properties.dfy`) proves what the widget
  promises about those functions. This covers the style rule, the first-tab
  rule, rejection of null arguments, size propagation per orientation, and
  preservation of the invariant under any sequence of calls.
- `DetachedTabsWidget` (`detached_tabs.dfy`) is the widget as a class
  `DetachedTabs` with the Java fields. The sheet is a separate
  `ComponentContainer` object that the widget empties and refills. Each
  method follows the Java method step by step, loops included. Each is
  proved to produce `TabStrip`'s state for the call: `Model() ==
  TabStrip.Op(old(Model()), ...)`.
- `Scenarios` (`scenarios.dfy`) holds concrete runs: add, add, click; three
  adds and the classes of three tabs before and after a click; sizing a
  horizontal strip.

Representation choices:
- Tabs are identified by position, because no tab is ever removed or moved.
- Content is an opaque `ContentId`.
- A size is a `(value, unit)` pair that is only ever copied.
- Java `null` is `Option.None`, and a thrown `NullPointerException` is a
  returned `Error`.
- The Java class keeps the buttons twice: in the layout and in the `tabs`
  list. It always appends to both together, so one sequence models both.

Three points where a tab widget might be expected to behave otherwise, and
what this code does (the model follows the code):
- Clicking the shown tab again is not a no-op. `switchTo` always empties and
  refills the sheet and restyles. What is proved is that the second click
  leaves the same state (`ClickIdempotent`).
- `addTab` returns nothing. The new tab's identity is its position,
  `|tabs|` before the call.
- The code has no "unknown tab" error. Clicks reach the widget only through
  the listener it attaches to its own buttons, so `Click` requires an
  existing button.

## Model

| member | source | states |
|---|---|---|
| DetachedTabsWidget.DetachedTabs.New | src/com/github/wolfie/detachedtabs/DetachedTabs.java:104-109 | fails with the constructor's null-pointer error exactly when the container or the orientation is null; otherwise yields a fresh, valid widget over that container whose state is `Create`'s |
| DetachedTabsWidget.DetachedTabs.constructor | src/com/github/wolfie/detachedtabs/DetachedTabs.java:111-135 | the widget starts with no tab, nothing shown, the container untouched, full size and then 30px high (horizontal) or 100px wide (vertical), with the orientation's style class |
| DetachedTabsWidget.DetachedTabs.AddTab | src/com/github/wolfie/detachedtabs/DetachedTabs.java:147-171 | a null content or caption fails with the add-tab error and leaves the whole state (tabs, map, selection, container) unchanged; otherwise the new state is `TabStrip.AddTab`'s, and the invariant is kept |
| DetachedTabsWidget.DetachedTabs.AdjustTabStyles | src/com/github/wolfie/detachedtabs/DetachedTabs.java:173-190 | the loop leaves every tab with exactly the classes `StylesFor` gives its position and the selection, and changes nothing else |
| DetachedTabsWidget.DetachedTabs.SwitchTo | src/com/github/wolfie/detachedtabs/DetachedTabs.java:192-198 | the container ends up holding exactly `[content]`, the shown tab is `button`, and all tabs are restyled |
| DetachedTabsWidget.DetachedTabs.Click | src/com/github/wolfie/detachedtabs/DetachedTabs.java:76-80 | a click on an existing button switches to the content the map holds for it, and the invariant is kept |
| DetachedTabsWidget.DetachedTabs.SetWidth | src/com/github/wolfie/detachedtabs/DetachedTabs.java:200-210 | the strip's width becomes `w`; a vertical strip's loop sets every tab's width to `w`, a horizontal strip leaves the tabs alone |
| DetachedTabsWidget.DetachedTabs.SetHeight | src/com/github/wolfie/detachedtabs/DetachedTabs.java:212-222 | the strip's height becomes `h`; a horizontal strip's loop sets every tab's height to `h`, a vertical strip leaves the tabs alone |
| DetachedTabsWidget.SwitchingScenario | src/com/github/wolfie/detachedtabs/DetachedTabs.java:147-198 | a caller that adds two tabs, has one add rejected and clicks the second tab sees exactly the second content in the container and the second tab shown |
| TabStripProperties.StyleRule | src/com/github/wolfie/detachedtabs/DetachedTabs.java:173-190 | under the invariant every tab carries `tab`; `tab-first` exactly at index 0; `tab-last` exactly at the last index; `tab-selected` exactly on the shown tab; no other class |
| TabStripProperties.ExactlyOneSelected | src/com/github/wolfie/detachedtabs/DetachedTabs.java:186-188 | no tab carries `tab-selected` while there are none; once a tab exists, the set of selected-marked tabs is exactly the shown one |
| TabStripProperties.CreateChecksArguments | src/com/github/wolfie/detachedtabs/DetachedTabs.java:107-109 | the constructor fails if and only if the container or the orientation is null, with its own message |
| TabStripProperties.CreateInitialState | src/com/github/wolfie/detachedtabs/DetachedTabs.java:111-135 | a constructed strip keeps its orientation, has no tab and no shown tab, leaves the sheet as it was, satisfies the invariant, and is sized 100%×30px (horizontal) or 100px×100% (vertical) |
| TabStripProperties.AddTabRejectsNull | src/com/github/wolfie/detachedtabs/DetachedTabs.java:147-150 | `addTab` fails if and only if the content or the caption is null, with its own message, and a rejected call leaves the strip unchanged |
| TabStripProperties.AddTabAppends | src/com/github/wolfie/detachedtabs/DetachedTabs.java:152-164 | a successful add appends exactly one tab with the given caption, keeps the earlier tabs' captions and sizes in order, maps the new position to the content, and sizes the new tab to 100% on the main axis and the strip's current size on the cross axis |
| TabStripProperties.AddTabSelection | src/com/github/wolfie/detachedtabs/DetachedTabs.java:168-170 | the first tab ever added becomes shown and the sheet holds exactly its content; a later add leaves the shown tab and the sheet unchanged |
| TabStripProperties.SingleTabStyles | src/com/github/wolfie/detachedtabs/DetachedTabs.java:166-190 | a lone tab carries exactly `{tab, tab-first, tab-last, tab-selected}` |
| TabStripProperties.AddTabMovesLast | src/com/github/wolfie/detachedtabs/DetachedTabs.java:178-184 | appending a tab takes `tab-last` away from the previous last tab and gives it to the new one |
| TabStripProperties.RestyleStyles | src/com/github/wolfie/detachedtabs/DetachedTabs.java:178-188 | restyling keeps the number of tabs, their captions and sizes, and gives every tab the classes of the style rule |
| TabStripProperties.AddTabPreservesInv | src/com/github/wolfie/detachedtabs/DetachedTabs.java:162-170 | a successful add keeps the invariant, and keeps the sheet showing the shown tab's content |
| TabStripProperties.ClickShows | src/com/github/wolfie/detachedtabs/DetachedTabs.java:76-80 | clicking tab `b` leaves the sheet holding exactly `b`'s mapped content and `b` shown, keeps the map and the tab count, and keeps the invariant |
| TabStripProperties.ClickIdempotent | src/com/github/wolfie/detachedtabs/DetachedTabs.java:192-197 | clicking the same tab twice gives the same state as clicking it once |
| TabStripProperties.SetWidthPropagation | src/com/github/wolfie/detachedtabs/DetachedTabs.java:200-210 | `setWidth` updates the strip's width; it replaces exactly the width of every tab of a vertical strip and leaves a horizontal strip's tabs unchanged |
| TabStripProperties.SetHeightPropagation | src/com/github/wolfie/detachedtabs/DetachedTabs.java:212-222 | `setHeight` updates the strip's height; it replaces exactly the height of every tab of a horizontal strip and leaves a vertical strip's tabs unchanged |
| TabStripProperties.StepPreservesInv | src/com/github/wolfie/detachedtabs/DetachedTabs.java:147-222 | each call keeps the invariant, keeps the sheet projected, and keeps the orientation |
| TabStripProperties.RunPreservesInv | src/com/github/wolfie/detachedtabs/DetachedTabs.java:92-93 | after any sequence of calls the invariant still holds (the shown tab is absent exactly while there is no tab and is otherwise a tab; with `ExactlyOneSelected`, it is the only one marked selected), the sheet holds its content, and the orientation has not changed |
| TabStripProperties.StepKeepsTabs | src/com/github/wolfie/detachedtabs/DetachedTabs.java:162-164 | no call removes or reorders tabs, and once a tab is shown some tab stays shown |
| TabStripProperties.RunKeepsTabs | src/com/github/wolfie/detachedtabs/DetachedTabs.java:91-92 | after any sequence of calls the earlier tabs are still there, in order, with their captions, and a shown tab never becomes none |
| TabStripProperties.AddStep | src/com/github/wolfie/detachedtabs/DetachedTabs.java:147-171 | one valid add, as an event, appends its tab and content, keeps the earlier ones, keeps the map covering exactly the tabs, and follows the first-tab rule |
| TabStripProperties.AddsInOrder | src/com/github/wolfie/detachedtabs/DetachedTabs.java:162-164 | after N valid adds there are N more tabs in insertion order, each mapped to its content, and the earlier tabs keep their captions and contents |
| TabStripProperties.AddsShowFirst | src/com/github/wolfie/detachedtabs/DetachedTabs.java:168-170 | across N valid adds the first tab ever added is the one shown and fills the sheet; if a tab was already shown, the shown tab and the sheet stay as they were |
| Scenarios.AddAddClick | src/com/github/wolfie/detachedtabs/DetachedTabs.java:147-198 | over a horizontal strip: the first add shows A, the second still shows A, and a click on the second tab shows exactly B |
| Scenarios.ThreeTabsAdded | src/com/github/wolfie/detachedtabs/DetachedTabs.java:147-171 | three adds to a fresh strip of either orientation give three tabs, the first shown, and the invariant |
| Scenarios.ThreeTabStyles | src/com/github/wolfie/detachedtabs/DetachedTabs.java:173-190 | with three tabs and the first shown, the first carries `tab tab-first tab-selected`, the middle only `tab`, the last `tab tab-last`; after a click on the middle one, `tab-selected` moves to it and the other two keep only their position markers |
| Scenarios.HorizontalSizing | src/com/github/wolfie/detachedtabs/DetachedTabs.java:200-222 | on a horizontal strip with two tabs, setting the height to 40px reaches both tabs, and a later width change leaves the tabs as they were |

## Left out

- Rendering: `CustomComponent`, the `HorizontalLayout`/`VerticalLayout` the buttons live in, `NativeButton` construction, wiring the click listener and `setCompositionRoot`. The layout is the `tabs` sequence, and a button is a `Tab` record.
- The button's own identity: the Java class looks a button up in `buttonComponentMap` through the clicked button object. The model uses the button's position in the list, which identifies it just as uniquely.
- The `UnsupportedOperationException` branch of the constructor's switch: `Orientation` is a closed datatype, so that branch cannot be reached.
- Float arithmetic on sizes and the parsing of size strings (`"30px"`, `setSizeFull()`): only the resulting `(value, unit)` pair is recorded.
- Order of initialisation: the Java constructor calls the overridden `setWidth`/`setHeight` before `orientation` is assigned. At that point there are no tabs to propagate to, so the constructor sets the strip's size directly, and propagation is modelled only for a constructed widget.
- Re-entrant clicks from inside the container and width or height changes made by outside code are not modelled. The model only sees the calls listed in `Event`.
- DetachedTabsWidget.DetachedTabs.Click: requires the clicked position to be an existing tab. The listener is attached only to the widget's own buttons, so any other click cannot happen.
- DetachedtabsApplication.java (the demo application) is not part of this model: it only builds windows and random tables.
