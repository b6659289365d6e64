/**
 * The `DetachedTabs` widget as an object: a tab strip whose sheet is an
 * external container. Each method does what the Java method does, step by
 * step, and is proved to produce the strip the matching `TabStrip` function
 * describes.
 */
module DetachedTabsWidget {
  import opened Wrappers
  import opened TabStrip
  import TabStripProperties

  /** The external container that serves as the sheet: the widget only empties and fills it. */
  class ComponentContainer {
    var components: seq<ContentId>

    constructor (initial: seq<ContentId>)
      ensures components == initial
    {
      components := initial;
    }

    method RemoveAllComponents()
      modifies this
      ensures components == []
    {
      components := [];
    }

    method AddComponent(c: ContentId)
      modifies this
      ensures components == old(components) + [c]
    {
      components := components + [c];
    }
  }

  class DetachedTabs {
    const orientation: Orientation
    const container: ComponentContainer
    /** The widget's own style classes. */
    const styleNames: set<string>
    var width: Size
    var height: Size
    /** The tab buttons, in the order they were added; also the layout's components. */
    var tabs: seq<Tab>
    /** The component each tab button shows, by the button's position. */
    var buttonComponentMap: map<nat, ContentId>
    /** The shown tab, `None` until the first tab is added. */
    var shownTab: Option<nat>

    /** The widget and its sheet as a value. */
    function Model(): Strip
      reads this, container
    {
      Strip(orientation, styleNames, width, height, tabs, buttonComponentMap, shownTab, container.components)
    }

    ghost predicate Valid()
      reads this
    {
      TabsInv(tabs, buttonComponentMap, shownTab)
    }

    /** The constructor once its arguments are known not to be null. */
    constructor (container: ComponentContainer, orientation: Orientation)
      ensures Valid() && this.container == container
      ensures Model() == Initial(container.components, orientation)
    {
      this.orientation := orientation;
      this.container := container;
      styleNames := {WidgetClass} + {if orientation == Horizontal then WidgetHorizontalClass else WidgetVerticalClass};
      // setSizeFull()
      width := FullSize;
      height := FullSize;
      tabs := [];
      buttonComponentMap := map[];
      shownTab := None;
      new;
      match orientation
      case Horizontal => height := HorizontalStripHeight;
      case Vertical => width := VerticalStripWidth;
    }

    /** The Java constructor: it throws on a null container or orientation. */
    static method New(container: ComponentContainer?, orientation: Option<Orientation>)
      returns (r: Result<DetachedTabs, Error>)
      ensures r.Failure? <==> container == null || orientation.None?
      ensures r.Failure? ==> r.error == NullPointer(ConstructorNullMessage)
      ensures r.Success? ==>
        && container != null && fresh(r.value) && r.value.Valid() && r.value.container == container
        && r.value.Model() == Create(Some(container.components), orientation).value
    {
      if container == null || orientation.None? {
        return Failure(NullPointer(ConstructorNullMessage));
      }
      var w := new DetachedTabs(container, orientation.value);
      r := Success(w);
    }

    /** Recompute every tab's classes from its position and from the selection. */
    method AdjustTabStyles()
      requires shownTab.Some? ==> shownTab.value < |tabs|
      modifies this`tabs
      ensures tabs == Restyle(old(tabs), shownTab)
    {
      if |tabs| > 0 {
        var first := 0;
        var last := first;
        var i := 0;
        while i < |tabs|
          invariant 0 <= i <= |tabs| == |old(tabs)|
          invariant last == if i == 0 then 0 else i - 1
          invariant forall k :: 0 <= k < i ==> tabs[k] == old(tabs)[k].(styles := {TabClass})
          invariant forall k :: i <= k < |tabs| ==> tabs[k] == old(tabs)[k]
        {
          tabs := tabs[i := tabs[i].(styles := {TabClass})];
          last := i;
          i := i + 1;
        }
        tabs := tabs[first := tabs[first].(styles := tabs[first].styles + {TabFirstClass})];
        tabs := tabs[last := tabs[last].(styles := tabs[last].styles + {TabLastClass})];
        if shownTab.Some? {
          var k := shownTab.value;
          tabs := tabs[k := tabs[k].(styles := tabs[k].styles + {TabSelectedClass})];
        }
        forall k | 0 <= k < |tabs|
          ensures tabs[k] == Restyle(old(tabs), shownTab)[k]
        {
          assert tabs[k].styles == StylesFor(k, |tabs|, shownTab);
        }
      }
    }

    /** Empty the sheet, show `content` in it, record `button` as shown and restyle. */
    method SwitchTo(content: ContentId, button: nat)
      requires button < |tabs|
      modifies this, container
      ensures Model() == TabStrip.SwitchTo(old(Model()), content, button)
    {
      container.RemoveAllComponents();
      container.AddComponent(content);
      shownTab := Some(button);
      AdjustTabStyles();
    }

    /** `addTab`: throws on a null argument before touching anything. */
    method AddTab(content: Option<ContentId>, caption: Option<string>) returns (r: Outcome<Error>)
      requires Valid()
      modifies this, container
      ensures Valid()
      ensures r.Fail? <==> TabStrip.AddTab(old(Model()), content, caption).Failure?
      ensures r.Fail? ==> r.error == NullPointer(AddTabNullMessage) && Model() == old(Model())
      ensures r.Pass? ==> Model() == TabStrip.AddTab(old(Model()), content, caption).value
    {
      if content.None? || caption.None? {
        return Fail(NullPointer(AddTabNullMessage));
      }
      var button: Tab;
      if orientation == Horizontal {
        button := Tab(caption.value, {}, width, FullSize);
      } else {
        button := Tab(caption.value, {}, FullSize, height);
      }
      var index := |tabs|;
      buttonComponentMap := buttonComponentMap[index := content.value];
      tabs := tabs + [button];
      AdjustTabStyles();
      if shownTab.None? {
        SwitchTo(content.value, index);
      }
      r := Pass;
      TabStripProperties.AddTabPreservesInv(old(Model()), content, caption);
    }

    /** The click listener: switch to the component mapped to the clicked button. */
    method Click(button: nat)
      requires Valid() && button < |tabs|
      modifies this, container
      ensures Valid()
      ensures button in old(buttonComponentMap)
      ensures Model() == TabStrip.Click(old(Model()), button)
    {
      var componentToSwitch := buttonComponentMap[button];
      SwitchTo(componentToSwitch, button);
      TabStripProperties.ClickShows(old(Model()), button);
    }

    /** The overridden `setWidth`: a vertical strip passes the width on to every tab. */
    method SetWidth(w: Size)
      requires Valid()
      modifies this`tabs, this`width
      ensures Valid()
      ensures Model() == TabStrip.SetWidth(old(Model()), w)
    {
      if orientation == Vertical {
        var i := 0;
        while i < |tabs|
          invariant 0 <= i <= |tabs| == |old(tabs)|
          invariant forall k :: 0 <= k < i ==> tabs[k] == old(tabs)[k].(width := w)
          invariant forall k :: i <= k < |tabs| ==> tabs[k] == old(tabs)[k]
        {
          tabs := tabs[i := tabs[i].(width := w)];
          i := i + 1;
        }
      }
      width := w;
    }

    /** The overridden `setHeight`: a horizontal strip passes the height on to every tab. */
    method SetHeight(h: Size)
      requires Valid()
      modifies this`tabs, this`height
      ensures Valid()
      ensures Model() == TabStrip.SetHeight(old(Model()), h)
    {
      if orientation == Horizontal {
        var i := 0;
        while i < |tabs|
          invariant 0 <= i <= |tabs| == |old(tabs)|
          invariant forall k :: 0 <= k < i ==> tabs[k] == old(tabs)[k].(height := h)
          invariant forall k :: i <= k < |tabs| ==> tabs[k] == old(tabs)[k]
        {
          tabs := tabs[i := tabs[i].(height := h)];
          i := i + 1;
        }
      }
      height := h;
    }
  }

  /** A caller of the widget: its contracts alone fix what the sheet shows after each call. */
  method SwitchingScenario(a: ContentId, b: ContentId) returns (sheet: seq<ContentId>, shown: Option<nat>)
    ensures sheet == [b] && shown == Some(1)
  {
    var container := new ComponentContainer([]);
    var rejected := DetachedTabs.New(null, Some(Horizontal));
    assert rejected.Failure?;
    var w := new DetachedTabs(container, Horizontal);
    var r := w.AddTab(Some(a), Some("A"));
    assert container.components == [a] && w.shownTab == Some(0);
    r := w.AddTab(None, Some("no content"));
    assert r.Fail? && |w.tabs| == 1;
    r := w.AddTab(Some(b), Some("B"));
    assert container.components == [a] && |w.tabs| == 2;
    w.Click(1);
    sheet, shown := container.components, w.shownTab;
  }
}
