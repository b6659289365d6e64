/** What the tab strip promises, proved about the functions of `TabStrip`. */
module TabStripProperties {
  import opened Wrappers
  import opened TabStrip

  // ---------------------------------------------------------------------------
  // The style rule

  /** The four classes a tab may carry, and when it carries each of them. */
  lemma StyleRule(s: Strip, i: nat)
    requires Inv(s) && i < |s.tabs|
    ensures TabClass in s.tabs[i].styles
    ensures TabFirstClass in s.tabs[i].styles <==> i == 0
    ensures TabLastClass in s.tabs[i].styles <==> i == |s.tabs| - 1
    ensures TabSelectedClass in s.tabs[i].styles <==> s.shown == Some(i)
    ensures s.tabs[i].styles <= {TabClass, TabFirstClass, TabLastClass, TabSelectedClass}
  {
  }

  /** The positions of the tabs that carry `tab-selected`. */
  ghost function SelectedTabs(s: Strip): set<nat>
  {
    set i: nat | i < |s.tabs| && TabSelectedClass in s.tabs[i].styles
  }

  /** No tab is marked selected before the first add, and exactly the shown one after it. */
  lemma ExactlyOneSelected(s: Strip)
    requires Inv(s)
    ensures |s.tabs| == 0 ==> SelectedTabs(s) == {}
    ensures |s.tabs| > 0 ==> s.shown.Some? && SelectedTabs(s) == {s.shown.value}
    ensures |SelectedTabs(s)| == if |s.tabs| == 0 then 0 else 1
  {
    forall i: nat | i < |s.tabs|
      ensures TabSelectedClass in s.tabs[i].styles <==> s.shown == Some(i)
    {
      StyleRule(s, i);
    }
    if |s.tabs| > 0 {
      assert s.shown.value in SelectedTabs(s);
      assert SelectedTabs(s) == {s.shown.value};
    }
  }

  // ---------------------------------------------------------------------------
  // The constructor

  /** A null container or orientation is rejected; otherwise the strip starts empty and sized. */
  lemma CreateChecksArguments(sheet: Option<seq<ContentId>>, o: Option<Orientation>)
    ensures Create(sheet, o).Failure? <==> sheet.None? || o.None?
    ensures Create(sheet, o).Failure? ==> Create(sheet, o).error == NullPointer(ConstructorNullMessage)
  {
  }

  /** The initial sizes and classes per orientation; no tab, nothing shown, the sheet untouched. */
  lemma CreateInitialState(sheet: seq<ContentId>, o: Orientation)
    ensures Create(Some(sheet), Some(o)).Success?
    ensures var s := Create(Some(sheet), Some(o)).value;
      && s.orientation == o
      && s.tabs == [] && s.contentOf == map[] && s.shown == None && s.sheet == sheet
      && Inv(s) && Projected(s)
      && (o == Horizontal ==> s.width == FullSize && s.height == HorizontalStripHeight
                              && s.styleNames == {WidgetClass, WidgetHorizontalClass})
      && (o == Vertical ==> s.width == VerticalStripWidth && s.height == FullSize
                            && s.styleNames == {WidgetClass, WidgetVerticalClass})
  {
  }

  // ---------------------------------------------------------------------------
  // addTab

  /** A null content or caption fails before any state is touched. */
  lemma AddTabRejectsNull(s: Strip, content: Option<ContentId>, caption: Option<string>)
    ensures AddTab(s, content, caption).Failure? <==> content.None? || caption.None?
    ensures AddTab(s, content, caption).Failure? ==>
      AddTab(s, content, caption).error == NullPointer(AddTabNullMessage)
              && Step(s, AddTabCall(content, caption)) == s
  {
  }

  /**
   * A successful add appends exactly one tab, keeps the earlier tabs' captions
   * and sizes in order, maps the new tab to its content, and sizes it along
   * the cross axis from the strip's current size.
   */
  lemma AddTabAppends(s: Strip, content: ContentId, caption: string)
    ensures AddTab(s, Some(content), Some(caption)).Success?
    ensures var r := AddTab(s, Some(content), Some(caption)).value;
      && |r.tabs| == |s.tabs| + 1
      && (forall i :: 0 <= i < |s.tabs| ==>
            r.tabs[i].caption == s.tabs[i].caption
            && r.tabs[i].width == s.tabs[i].width && r.tabs[i].height == s.tabs[i].height)
      && r.tabs[|s.tabs|].caption == caption
      && r.contentOf == s.contentOf[|s.tabs| := content]
      && (s.orientation == Horizontal ==>
            r.tabs[|s.tabs|].height == FullSize && r.tabs[|s.tabs|].width == s.width)
      && (s.orientation == Vertical ==>
            r.tabs[|s.tabs|].width == FullSize && r.tabs[|s.tabs|].height == s.height)
      && r.orientation == s.orientation && r.width == s.width && r.height == s.height
      && r.styleNames == s.styleNames
  {
  }

  /** The first tab ever added is shown and fills the sheet; later adds change neither. */
  lemma AddTabSelection(s: Strip, content: ContentId, caption: string)
    ensures var r := AddTab(s, Some(content), Some(caption)).value;
      && (s.shown.None? ==> r.shown == Some(|s.tabs|) && r.sheet == [content])
      && (s.shown.Some? ==> r.shown == s.shown && r.sheet == s.sheet)
  {
  }

  /** For a single tab, the tab carries all four classes. */
  lemma SingleTabStyles(s: Strip, content: ContentId, caption: string)
    requires Inv(s) && s.tabs == []
    ensures AddTab(s, Some(content), Some(caption)).value.tabs[0].styles
            == {TabClass, TabFirstClass, TabLastClass, TabSelectedClass}
  {
  }

  /** Appending a tab takes `tab-last` away from the previous last tab and gives it to the new one. */
  lemma AddTabMovesLast(s: Strip, content: ContentId, caption: string)
    requires Inv(s) && |s.tabs| > 0
    ensures var r := AddTab(s, Some(content), Some(caption)).value;
      && TabLastClass !in r.tabs[|s.tabs| - 1].styles
      && TabLastClass in r.tabs[|s.tabs|].styles
  {
    var r := AddTab(s, Some(content), Some(caption)).value;
    assert r.tabs[|s.tabs| - 1].styles == StylesFor(|s.tabs| - 1, |s.tabs| + 1, r.shown);
    assert r.tabs[|s.tabs|].styles == StylesFor(|s.tabs|, |s.tabs| + 1, r.shown);
  }

  /** Restyling establishes the style part of the invariant for any selection. */
  lemma RestyleStyles(tabs: seq<Tab>, shown: Option<nat>)
    ensures |Restyle(tabs, shown)| == |tabs|
    ensures forall i :: 0 <= i < |tabs| ==>
      Restyle(tabs, shown)[i].styles == StylesFor(i, |tabs|, shown)
      && Restyle(tabs, shown)[i].caption == tabs[i].caption
      && Restyle(tabs, shown)[i].width == tabs[i].width
      && Restyle(tabs, shown)[i].height == tabs[i].height
  {
  }

  /** A successful add keeps the invariant, and keeps the sheet showing the shown tab. */
  lemma AddTabPreservesInv(s: Strip, content: Option<ContentId>, caption: Option<string>)
    requires Inv(s)
    ensures AddTab(s, content, caption).Success? ==> Inv(AddTab(s, content, caption).value)
    ensures AddTab(s, content, caption).Success? && Projected(s) ==>
      Projected(AddTab(s, content, caption).value)
  {
    if content.Some? && caption.Some? {
      var n := |s.tabs|;
      var tabs := s.tabs + [NewTab(s, caption.value)];
      RestyleStyles(tabs, s.shown);
      RestyleStyles(Restyle(tabs, s.shown), Some(n));
    }
  }

  // ---------------------------------------------------------------------------
  // Clicking a tab

  /** A click on tab `b` makes the sheet hold exactly `b`'s content and shows `b`. */
  lemma ClickShows(s: Strip, b: nat)
    requires Inv(s) && b < |s.tabs|
    ensures b in s.contentOf
    ensures Click(s, b).sheet == [s.contentOf[b]]
    ensures Click(s, b).shown == Some(b)
    ensures Click(s, b).contentOf == s.contentOf
    ensures |Click(s, b).tabs| == |s.tabs|
    ensures Inv(Click(s, b)) && Projected(Click(s, b))
  {
    RestyleStyles(s.tabs, Some(b));
  }

  /** `switchTo` never short-circuits, and a second click on the same tab changes nothing. */
  lemma ClickIdempotent(s: Strip, b: nat)
    requires Inv(s) && b < |s.tabs|
    ensures b in Click(s, b).contentOf
    ensures Click(Click(s, b), b) == Click(s, b)
  {
    var once := Click(s, b);
    RestyleStyles(s.tabs, Some(b));
    RestyleStyles(once.tabs, Some(b));
    assert Restyle(once.tabs, Some(b)) == once.tabs;
  }

  // ---------------------------------------------------------------------------
  // Sizes

  /** `setWidth` reaches every tab of a vertical strip and no tab of a horizontal one. */
  lemma SetWidthPropagation(s: Strip, w: Size)
    ensures SetWidth(s, w).width == w && SetWidth(s, w).height == s.height
    ensures |SetWidth(s, w).tabs| == |s.tabs|
    ensures s.orientation == Horizontal ==> SetWidth(s, w).tabs == s.tabs
    ensures s.orientation == Vertical ==> forall i :: 0 <= i < |s.tabs| ==>
      SetWidth(s, w).tabs[i] == s.tabs[i].(width := w)
  {
  }

  /** `setHeight` reaches every tab of a horizontal strip and no tab of a vertical one. */
  lemma SetHeightPropagation(s: Strip, h: Size)
    ensures SetHeight(s, h).height == h && SetHeight(s, h).width == s.width
    ensures |SetHeight(s, h).tabs| == |s.tabs|
    ensures s.orientation == Vertical ==> SetHeight(s, h).tabs == s.tabs
    ensures s.orientation == Horizontal ==> forall i :: 0 <= i < |s.tabs| ==>
      SetHeight(s, h).tabs[i] == s.tabs[i].(height := h)
  {
  }

  // ---------------------------------------------------------------------------
  // Any sequence of calls

  lemma StepPreservesInv(s: Strip, e: Event)
    requires Inv(s) && Projected(s)
    ensures Inv(Step(s, e)) && Projected(Step(s, e))
    ensures Step(s, e).orientation == s.orientation
  {
    match e
    case AddTabCall(content, caption) => AddTabPreservesInv(s, content, caption);
    case TabClick(b) => if b in s.contentOf { ClickShows(s, b); }
    case SetWidthCall(w) =>
    case SetHeightCall(h) =>
  }

  /**
   * After any sequence of calls the invariant still holds: the shown tab is
   * absent exactly while there is no tab, is otherwise one of the tabs, is the
   * only one marked selected, and the sheet holds exactly its content.
   */
  lemma {:induction false} RunPreservesInv(s: Strip, events: seq<Event>)
    requires Inv(s) && Projected(s)
    ensures Inv(Run(s, events)) && Projected(Run(s, events))
    ensures Run(s, events).orientation == s.orientation
    decreases |events|
  {
    if events != [] {
      StepPreservesInv(s, events[0]);
      RunPreservesInv(Step(s, events[0]), events[1..]);
    }
  }

  /** No event removes a tab or reorders them: captions only ever grow at the end. */
  lemma StepKeepsTabs(s: Strip, e: Event)
    ensures |Step(s, e).tabs| >= |s.tabs|
    ensures forall i :: 0 <= i < |s.tabs| ==> Step(s, e).tabs[i].caption == s.tabs[i].caption
    ensures s.shown.Some? ==> Step(s, e).shown.Some?
  {
    match e
    case AddTabCall(content, caption) =>
      if content.Some? && caption.Some? {
        RestyleStyles(s.tabs + [NewTab(s, caption.value)], s.shown);
        RestyleStyles(Restyle(s.tabs + [NewTab(s, caption.value)], s.shown), Some(|s.tabs|));
      }
    case TabClick(b) => RestyleStyles(s.tabs, Some(b));
    case SetWidthCall(w) =>
    case SetHeightCall(h) =>
  }

  lemma {:induction false} RunKeepsTabs(s: Strip, events: seq<Event>)
    ensures |Run(s, events).tabs| >= |s.tabs|
    ensures forall i :: 0 <= i < |s.tabs| ==> Run(s, events).tabs[i].caption == s.tabs[i].caption
    ensures s.shown.Some? ==> Run(s, events).shown.Some?
    decreases |events|
  {
    if events != [] {
      StepKeepsTabs(s, events[0]);
      RunKeepsTabs(Step(s, events[0]), events[1..]);
    }
  }

  /** The events that add each `(content, caption)` pair with non-null arguments, in order. */
  function Adds(items: seq<(ContentId, string)>): (r: seq<Event>)
    ensures |r| == |items|
  {
    if items == [] then [] else [AddTabCall(Some(items[0].0), Some(items[0].1))] + Adds(items[1..])
  }

  /** One add with non-null arguments, as an event: the facts `AddsInOrder` chains together. */
  lemma AddStep(s: Strip, c: ContentId, cap: string)
    requires MapCoversTabs(s.tabs, s.contentOf)
    ensures var r := Step(s, AddTabCall(Some(c), Some(cap)));
      && MapCoversTabs(r.tabs, r.contentOf)
      && |r.tabs| == |s.tabs| + 1
      && (forall i :: 0 <= i < |s.tabs| ==>
            r.tabs[i].caption == s.tabs[i].caption && r.contentOf[i] == s.contentOf[i])
      && r.tabs[|s.tabs|].caption == cap && r.contentOf[|s.tabs|] == c
      && (s.shown.Some? ==> r.shown == s.shown && r.sheet == s.sheet)
      && (s.shown.None? ==> r.shown == Some(|s.tabs|) && r.sheet == [c])
  {
    AddTabAppends(s, c, cap);
    AddTabSelection(s, c, cap);
  }

  /** Playing the adds of `items` is playing the first add, then the rest. */
  lemma RunAddsCons(s: Strip, items: seq<(ContentId, string)>)
    requires items != []
    ensures Run(s, Adds(items))
            == Run(Step(s, AddTabCall(Some(items[0].0), Some(items[0].1))), Adds(items[1..]))
  {
    assert Adds(items)[1..] == Adds(items[1..]);
  }

  /**
   * After N adds with valid arguments there are N more tabs, in insertion
   * order, each mapped to its content, and the earlier tabs keep theirs.
   */
  lemma {:induction false} AddsInOrder(s: Strip, items: seq<(ContentId, string)>)
    requires MapCoversTabs(s.tabs, s.contentOf)
    ensures var r := Run(s, Adds(items));
      && MapCoversTabs(r.tabs, r.contentOf)
      && |r.tabs| == |s.tabs| + |items|
      && (forall i :: 0 <= i < |s.tabs| ==>
            r.tabs[i].caption == s.tabs[i].caption && r.contentOf[i] == s.contentOf[i])
      && (forall j :: 0 <= j < |items| ==>
            r.tabs[|s.tabs| + j].caption == items[j].1 && r.contentOf[|s.tabs| + j] == items[j].0)
    decreases |items|
  {
    if items != [] {
      var s1 := Step(s, AddTabCall(Some(items[0].0), Some(items[0].1)));
      RunAddsCons(s, items);
      AddStep(s, items[0].0, items[0].1);
      AddsInOrder(s1, items[1..]);
      var r := Run(s1, Adds(items[1..]));
      forall j | 0 <= j < |items|
        ensures r.tabs[|s.tabs| + j].caption == items[j].1 && r.contentOf[|s.tabs| + j] == items[j].0
      {
        if j > 0 {
          assert |s.tabs| + j == |s1.tabs| + (j - 1);
          assert items[1..][j - 1] == items[j];
        }
      }
    }
  }

  /** Across N valid adds, the first tab ever added is the one shown, and it fills the sheet. */
  lemma {:induction false} AddsShowFirst(s: Strip, items: seq<(ContentId, string)>)
    ensures var r := Run(s, Adds(items));
      && (s.shown.Some? ==> r.shown == s.shown && r.sheet == s.sheet)
      && (s.shown.None? && |items| > 0 ==> r.shown == Some(|s.tabs|) && r.sheet == [items[0].0])
    decreases |items|
  {
    if items != [] {
      var s1 := Step(s, AddTabCall(Some(items[0].0), Some(items[0].1)));
      RunAddsCons(s, items);
      AddTabSelection(s, items[0].0, items[0].1);
      AddsShowFirst(s1, items[1..]);
    }
  }
}
