/**
 * The state machine behind the `DetachedTabs` widget, stated on values.
 *
 * A strip holds an append-only sequence of tab buttons (identified by their
 * position), the map from each button to the component it shows, the shown
 * tab, a fixed orientation, the strip's own size, and the contents of the
 * external container ("the sheet") that the widget replaces wholesale.
 * Each operation of the widget is one function from the old strip to the new.
 */
module TabStrip {
  import opened Wrappers

  /** An opaque handle for a component that a tab shows in the sheet. */
  type ContentId = nat

  datatype Orientation = Horizontal | Vertical

  /** The unit codes of a Vaadin size. */
  datatype Unit = Pixels | Points | Picas | Em | Ex | Mm | Cm | Inch | Percentage

  /** A size as a component records it: only ever copied, never computed on. */
  datatype Size = Size(value: real, unit: Unit)

  /** `"100%"`, as set by `setSizeFull()` and on the main axis of each tab. */
  const FullSize := Size(100.0, Percentage)
  /** `"30px"`: the strip height a horizontal widget starts with. */
  const HorizontalStripHeight := Size(30.0, Pixels)
  /** `"100px"`: the strip width a vertical widget starts with. */
  const VerticalStripWidth := Size(100.0, Pixels)

  const WidgetClass := "detachedtabs"
  const WidgetHorizontalClass := "detachedtabs-horizontal"
  const WidgetVerticalClass := "detachedtabs-vertical"

  const TabClass := "tab"
  const TabFirstClass := "tab-first"
  const TabLastClass := "tab-last"
  const TabSelectedClass := "tab-selected"

  /** The messages of the two `NullPointerException`s the widget throws. */
  const ConstructorNullMessage := "arguments may not be null"
  const AddTabNullMessage := "Arguments may not be null"

  /** The only exception the core throws on its own account. */
  datatype Error = NullPointer(message: string)

  /** One tab button: its caption, style classes and size. */
  datatype Tab = Tab(caption: string, styles: set<string>, width: Size, height: Size)

  /** The whole observable state of one widget and of its sheet. */
  datatype Strip = Strip(
    orientation: Orientation,
    styleNames: set<string>,
    width: Size,
    height: Size,
    tabs: seq<Tab>,
    contentOf: map<nat, ContentId>,
    shown: Option<nat>,
    sheet: seq<ContentId>)

  /** The style classes the tab at position `i` of `n` carries when `shown` is the shown tab. */
  function StylesFor(i: nat, n: nat, shown: Option<nat>): set<string>
  {
    {TabClass}
    + (if i == 0 then {TabFirstClass} else {})
    + (if i == n - 1 then {TabLastClass} else {})
    + (if shown == Some(i) then {TabSelectedClass} else {})
  }

  /** The tabs after `adjustTabStyles`: every tab's classes recomputed, nothing else touched. */
  function Restyle(tabs: seq<Tab>, shown: Option<nat>): seq<Tab>
  {
    seq(|tabs|, i requires 0 <= i < |tabs| => tabs[i].(styles := StylesFor(i, |tabs|, shown)))
  }

  /** Every tab with its width replaced by `w`. */
  function WithWidth(tabs: seq<Tab>, w: Size): seq<Tab>
  {
    seq(|tabs|, i requires 0 <= i < |tabs| => tabs[i].(width := w))
  }

  /** Every tab with its height replaced by `h`. */
  function WithHeight(tabs: seq<Tab>, h: Size): seq<Tab>
  {
    seq(|tabs|, i requires 0 <= i < |tabs| => tabs[i].(height := h))
  }

  /**
   * The invariant of the tab bookkeeping: a tab is shown exactly when one
   * exists, the shown tab is one of the tabs, the map covers exactly the
   * tabs, and every tab carries the classes its position and the selection
   * call for.
   */
  ghost predicate TabsInv(tabs: seq<Tab>, contentOf: map<nat, ContentId>, shown: Option<nat>)
  {
    && (shown.None? <==> |tabs| == 0)
    && (shown.Some? ==> shown.value < |tabs|)
    && MapCoversTabs(tabs, contentOf)
    && (forall i :: 0 <= i < |tabs| ==> tabs[i].styles == StylesFor(i, |tabs|, shown))
  }

  /** The button-to-content map has an entry for exactly the existing tabs. */
  ghost predicate MapCoversTabs(tabs: seq<Tab>, contentOf: map<nat, ContentId>)
  {
    forall i: nat :: i in contentOf <==> i < |tabs|
  }

  ghost predicate Inv(s: Strip)
  {
    TabsInv(s.tabs, s.contentOf, s.shown)
  }

  /** Once a tab is shown, the sheet holds exactly that tab's content. */
  ghost predicate Projected(s: Strip)
  {
    s.shown.Some? ==> s.shown.value in s.contentOf && s.sheet == [s.contentOf[s.shown.value]]
  }

  /** A freshly constructed widget of orientation `o` over a sheet holding `sheet`. */
  function Initial(sheet: seq<ContentId>, o: Orientation): Strip
  {
    match o
    case Horizontal =>
      Strip(o, {WidgetClass, WidgetHorizontalClass}, FullSize, HorizontalStripHeight, [], map[], None, sheet)
    case Vertical =>
      Strip(o, {WidgetClass, WidgetVerticalClass}, VerticalStripWidth, FullSize, [], map[], None, sheet)
  }

  /** The constructor: a null container or orientation throws before anything is built. */
  function Create(sheet: Option<seq<ContentId>>, o: Option<Orientation>): Result<Strip, Error>
  {
    if sheet.None? || o.None? then Failure(NullPointer(ConstructorNullMessage))
    else Success(Initial(sheet.value, o.value))
  }

  /** A new tab button, sized along the strip's cross axis from the strip's own size. */
  function NewTab(s: Strip, caption: string): Tab
  {
    if s.orientation == Horizontal then Tab(caption, {}, s.width, FullSize)
    else Tab(caption, {}, FullSize, s.height)
  }

  /** `switchTo`: replace the sheet by `content`, show `button`, recompute the styles. */
  function SwitchTo(s: Strip, content: ContentId, button: nat): Strip
  {
    var shown := Some(button);
    s.(sheet := [content], shown := shown, tabs := Restyle(s.tabs, shown))
  }

  /**
   * `addTab`: a null argument throws before anything changes; otherwise the
   * tab is appended and mapped to its content, the styles are recomputed, and
   * the very first tab is switched to.
   */
  function AddTab(s: Strip, content: Option<ContentId>, caption: Option<string>): Result<Strip, Error>
  {
    if content.None? || caption.None? then Failure(NullPointer(AddTabNullMessage))
    else
      var button := |s.tabs|;
      var added := s.(contentOf := s.contentOf[button := content.value],
                      tabs := Restyle(s.tabs + [NewTab(s, caption.value)], s.shown));
      if s.shown.None? then Success(SwitchTo(added, content.value, button)) else Success(added)
  }

  /** A click on tab `button`: switch to the content the map holds for it. */
  function Click(s: Strip, button: nat): Strip
    requires button in s.contentOf
  {
    SwitchTo(s, s.contentOf[button], button)
  }

  /** The overridden `setWidth`: a vertical strip passes the width on to every tab. */
  function SetWidth(s: Strip, w: Size): Strip
  {
    s.(tabs := if s.orientation == Vertical then WithWidth(s.tabs, w) else s.tabs, width := w)
  }

  /** The overridden `setHeight`: a horizontal strip passes the height on to every tab. */
  function SetHeight(s: Strip, h: Size): Strip
  {
    s.(tabs := if s.orientation == Horizontal then WithHeight(s.tabs, h) else s.tabs, height := h)
  }

  /** The calls a widget can receive once it is constructed. */
  datatype Event =
    | AddTabCall(content: Option<ContentId>, caption: Option<string>)
    | TabClick(button: nat)
    | SetWidthCall(width: Size)
    | SetHeightCall(height: Size)

  /**
   * One event. A rejected `addTab` leaves the strip as it was. A click can
   * only come from an existing tab button, so a click naming no tab does nothing.
   */
  function Step(s: Strip, e: Event): Strip
  {
    match e
    case AddTabCall(content, caption) =>
      (match AddTab(s, content, caption)
       case Success(s') => s'
       case Failure(_) => s)
    case TabClick(b) => if b in s.contentOf then Click(s, b) else s
    case SetWidthCall(w) => SetWidth(s, w)
    case SetHeightCall(h) => SetHeight(s, h)
  }

  /** The strip after a sequence of events, in order. */
  function Run(s: Strip, events: seq<Event>): Strip
    decreases |events|
  {
    if events == [] then s else Run(Step(s, events[0]), events[1..])
  }
}
