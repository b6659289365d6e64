/** Concrete runs of the strip, stated as lemmas about the `TabStrip` functions. */
module Scenarios {
  import opened Wrappers
  import opened TabStrip
  import TabStripProperties

  /**
   * A horizontal strip over a sheet: the first tab fills the sheet, a second
   * add leaves it alone, and a click on the second tab replaces it.
   */
  lemma AddAddClick(initial: seq<ContentId>, a: ContentId, b: ContentId)
    ensures var s0 := Create(Some(initial), Some(Horizontal)).value;
      var s1 := AddTab(s0, Some(a), Some("A")).value;
      var s2 := AddTab(s1, Some(b), Some("B")).value;
      && s1.sheet == [a] && s1.shown == Some(0)
      && s2.sheet == [a] && s2.shown == Some(0)
      && 1 in s2.contentOf
      && Click(s2, 1).sheet == [b] && Click(s2, 1).shown == Some(1)
  {
  }

  /** Three tabs built from a fresh strip: the invariant holds and the first is shown. */
  lemma ThreeTabsAdded(initial: seq<ContentId>, o: Orientation, c1: ContentId, c2: ContentId, c3: ContentId)
    ensures var s0 := Create(Some(initial), Some(o)).value;
      var s1 := AddTab(s0, Some(c1), Some("T1")).value;
      var s2 := AddTab(s1, Some(c2), Some("T2")).value;
      var s3 := AddTab(s2, Some(c3), Some("T3")).value;
      Inv(s3) && |s3.tabs| == 3 && s3.shown == Some(0)
  {
    var s0 := Create(Some(initial), Some(o)).value;
    var s1 := AddTab(s0, Some(c1), Some("T1")).value;
    var s2 := AddTab(s1, Some(c2), Some("T2")).value;
    TabStripProperties.CreateInitialState(initial, o);
    TabStripProperties.AddTabPreservesInv(s0, Some(c1), Some("T1"));
    TabStripProperties.AddTabPreservesInv(s1, Some(c2), Some("T2"));
    TabStripProperties.AddTabPreservesInv(s2, Some(c3), Some("T3"));
  }

  /** The classes of three tabs with the first shown, and after a click on the middle one. */
  lemma ThreeTabStyles(s: Strip)
    requires Inv(s) && |s.tabs| == 3 && s.shown == Some(0)
    ensures s.tabs[0].styles == {TabClass, TabFirstClass, TabSelectedClass}
    ensures s.tabs[1].styles == {TabClass}
    ensures s.tabs[2].styles == {TabClass, TabLastClass}
    ensures 1 in s.contentOf
    ensures Click(s, 1).tabs[0].styles == {TabClass, TabFirstClass}
    ensures Click(s, 1).tabs[1].styles == {TabClass, TabSelectedClass}
    ensures Click(s, 1).tabs[2].styles == {TabClass, TabLastClass}
  {
    assert s.tabs[0].styles == StylesFor(0, 3, Some(0));
    assert s.tabs[1].styles == StylesFor(1, 3, Some(0));
    assert s.tabs[2].styles == StylesFor(2, 3, Some(0));
    TabStripProperties.ClickShows(s, 1);
    var c := Click(s, 1);
    assert c.tabs[0].styles == StylesFor(0, 3, Some(1));
    assert c.tabs[1].styles == StylesFor(1, 3, Some(1));
    assert c.tabs[2].styles == StylesFor(2, 3, Some(1));
  }

  /** Horizontal, two tabs, height set to 40px: both tabs follow; a later width leaves them. */
  lemma HorizontalSizing(initial: seq<ContentId>, c1: ContentId, c2: ContentId, w: Size)
    ensures var s0 := Create(Some(initial), Some(Horizontal)).value;
      var s2 := AddTab(AddTab(s0, Some(c1), Some("A")).value, Some(c2), Some("B")).value;
      var s3 := SetHeight(s2, Size(40.0, Pixels));
      var s4 := SetWidth(s3, w);
      && |s4.tabs| == 2
      && s3.tabs[0].height == Size(40.0, Pixels) && s3.tabs[1].height == Size(40.0, Pixels)
      && s4.tabs == s3.tabs && s4.width == w
  {
  }
}
