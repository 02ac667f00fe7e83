/**
 * The script side of tabs (MosaicTabs): which tab is current, the active
 * classes on tabs, panels and overflow items, hash navigation, and the split of
 * the tab strip into tabs that fit and tabs moved into the "More" menu.
 */
module TabsScript {
  import opened Strings

  /** What onChange receives and the mosaic:tab:change event carries: (current, previous). */
  datatype Change = Change(current: string, previous: Option<string>)

  /** A button of the overflow menu: the tab it stands for and whether it has the active class. */
  datatype OverflowItem = OverflowItem(tab: string, active: bool)

  /** The index of the first tab with this id (Array.prototype.find). */
  function FindTab(ids: seq<string>, id: string): (r: Option<nat>)
    ensures r.Some? ==> r.value < |ids| && ids[r.value] == id
    ensures r.None? <==> id !in ids
  {
    var i := IndexOf(ids, id);
    if i == -1 then None else Some(i as nat)
  }

  function FirstMarked(marked: seq<bool>): (r: Option<nat>)
    ensures r.Some? ==> r.value < |marked| && marked[r.value] && forall j :: 0 <= j < r.value ==> !marked[j]
    ensures r.None? <==> forall j :: 0 <= j < |marked| ==> !marked[j]
  {
    var i := IndexOf(marked, true);
    if i == -1 then None else Some(i as nat)
  }

  /**
   * The tab init activates. `hash` is window.location.hash, with its '#'.
   * `marked[i]` says tab i carried the active class in the page.
   */
  function InitialTab(ids: seq<string>, marked: seq<bool>, hashNavigation: bool, hash: string): Option<string>
    requires |marked| == |ids|
  {
    var fromHash := if hashNavigation && hash != "" then FindTab(ids, hash[1..]) else None;
    var chosen := if fromHash.Some? then fromHash else FirstMarked(marked);
    if chosen.Some? then Some(ids[chosen.value])
    else if |ids| > 0 then Some(ids[0])
    else None
  }

  /**
   * Precedence of the initial tab: a tab named by the hash (only with hash
   * navigation), then the first tab marked active, then the first tab; none
   * only when there are no tabs.
   */
  lemma InitialTabPrecedence(ids: seq<string>, marked: seq<bool>, hashNavigation: bool, hash: string)
    requires |marked| == |ids|
    ensures InitialTab(ids, marked, hashNavigation, hash).None? <==> |ids| == 0
    ensures hashNavigation && |hash| > 0 && hash[1..] in ids ==> InitialTab(ids, marked, hashNavigation, hash) == Some(hash[1..])
    ensures (!hashNavigation || hash == "" || hash[1..] !in ids) ==>
      forall i :: 0 <= i < |ids| && marked[i] && (forall j :: 0 <= j < i ==> !marked[j]) ==>
        InitialTab(ids, marked, hashNavigation, hash) == Some(ids[i])
    ensures (!hashNavigation || hash == "" || hash[1..] !in ids) && (forall j :: 0 <= j < |ids| ==> !marked[j]) && |ids| > 0 ==>
      InitialTab(ids, marked, hashNavigation, hash) == Some(ids[0])
  {
    if !hashNavigation || hash == "" || hash[1..] !in ids {
      forall i | 0 <= i < |ids| && marked[i] && (forall j :: 0 <= j < i ==> !marked[j])
        ensures InitialTab(ids, marked, hashNavigation, hash) == Some(ids[i])
      {
        assert FirstMarked(marked) == Some(i);
      }
    }
  }

  // ---------------------------------------------------------------------------
  // Overflow
  // ---------------------------------------------------------------------------

  /** Width of the first k tabs, each with its 4-pixel gap. */
  function Prefix(widths: seq<nat>, k: nat): nat
    requires k <= |widths|
  {
    if k == 0 then 0 else Prefix(widths, k - 1) + widths[k - 1] + 4
  }

  function Total(widths: seq<nat>): nat {
    Prefix(widths, |widths|)
  }

  /** Tab i is moved into the menu: the strip does not fit, and the running width through tab i passes wrapperWidth - 100. */
  predicate Overflows(widths: seq<nat>, wrapperWidth: int, i: nat)
    requires i < |widths|
  {
    Total(widths) > wrapperWidth && Prefix(widths, i + 1) > wrapperWidth - 100
  }

  lemma {:induction false} PrefixGrows(widths: seq<nat>, i: nat, j: nat)
    requires i <= j <= |widths|
    ensures Prefix(widths, i) + 4 * (j - i) <= Prefix(widths, j)
    decreases j - i
  {
    if i < j {
      PrefixGrows(widths, i, j - 1);
    }
  }

  /** The tabs moved into the menu are always a suffix of the strip. */
  lemma OverflowIsSuffix(widths: seq<nat>, wrapperWidth: int, i: nat, j: nat)
    requires i <= j < |widths|
    requires Overflows(widths, wrapperWidth, i)
    ensures Overflows(widths, wrapperWidth, j)
  {
    PrefixGrows(widths, i + 1, j + 1);
  }

  /** Nothing overflows when the strip fits; otherwise the last tab always does, so the menu is non-empty exactly when the strip does not fit. */
  lemma OverflowWhenTooWide(widths: seq<nat>, wrapperWidth: int)
    ensures Total(widths) <= wrapperWidth ==> forall i :: 0 <= i < |widths| ==> !Overflows(widths, wrapperWidth, i)
    ensures (exists i :: 0 <= i < |widths| && Overflows(widths, wrapperWidth, i)) <==> Total(widths) > wrapperWidth && |widths| > 0
  {
    if Total(widths) > wrapperWidth && |widths| > 0 {
      assert Overflows(widths, wrapperWidth, |widths| - 1);
    }
  }

  /** The indices of the overflowing tabs among the first k, in order. */
  function OverflowIndices(widths: seq<nat>, wrapperWidth: int, k: nat): (r: seq<nat>)
    requires k <= |widths|
    ensures forall j :: 0 <= j < |r| ==> r[j] < k
  {
    if k == 0 then []
    else OverflowIndices(widths, wrapperWidth, k - 1) + (if Overflows(widths, wrapperWidth, k - 1) then [k - 1] else [])
  }

  lemma {:induction false} OverflowIndicesSpec(widths: seq<nat>, wrapperWidth: int, k: nat)
    requires k <= |widths|
    ensures forall i: nat :: i in OverflowIndices(widths, wrapperWidth, k) <==> i < k && Overflows(widths, wrapperWidth, i)
    decreases k
  {
    if k > 0 {
      OverflowIndicesSpec(widths, wrapperWidth, k - 1);
    }
  }

  lemma {:induction false} NoOverflowIndices(widths: seq<nat>, wrapperWidth: int, k: nat)
    requires k <= |widths| && Total(widths) <= wrapperWidth
    ensures OverflowIndices(widths, wrapperWidth, k) == []
    decreases k
  {
    if k > 0 {
      NoOverflowIndices(widths, wrapperWidth, k - 1);
    }
  }

  function ItemsFor(ids: seq<string>, active: seq<bool>, idx: seq<nat>): (r: seq<OverflowItem>)
    requires |active| == |ids| && forall j :: 0 <= j < |idx| ==> idx[j] < |ids|
    ensures |r| == |idx| && forall j :: 0 <= j < |idx| ==> r[j] == OverflowItem(ids[idx[j]], active[idx[j]])
  {
    if idx == [] then [] else [OverflowItem(ids[idx[0]], active[idx[0]])] + ItemsFor(ids, active, idx[1..])
  }

  lemma ItemsForSnoc(ids: seq<string>, active: seq<bool>, idx: seq<nat>, i: nat)
    requires |active| == |ids| && i < |ids| && forall j :: 0 <= j < |idx| ==> idx[j] < |ids|
    ensures ItemsFor(ids, active, idx + [i]) == ItemsFor(ids, active, idx) + [OverflowItem(ids[i], active[i])]
  {
  }

  /** The active flags the tabs get from activate(id). */
  method MarkTabs(ids: seq<string>, id: string) returns (active: seq<bool>)
    ensures |active| == |ids| && forall i :: 0 <= i < |ids| ==> active[i] == (ids[i] == id)
  {
    active := [];
    var i := 0;
    while i < |ids|
      invariant 0 <= i <= |ids| && |active| == i
      invariant forall j :: 0 <= j < i ==> active[j] == (ids[j] == id)
    {
      active := active + [ids[i] == id];
      i := i + 1;
    }
  }

  /** The active flags the panels get from activate(id); a panel without data-tab is never active. */
  method MarkContents(contentIds: seq<Option<string>>, id: string) returns (active: seq<bool>)
    ensures |active| == |contentIds| && forall i :: 0 <= i < |contentIds| ==> active[i] == (contentIds[i] == Some(id))
  {
    active := [];
    var i := 0;
    while i < |contentIds|
      invariant 0 <= i <= |contentIds| && |active| == i
      invariant forall j :: 0 <= j < i ==> active[j] == (contentIds[j] == Some(id))
    {
      active := active + [contentIds[i] == Some(id)];
      i := i + 1;
    }
  }

  /** The overflow items after activate(id): same items, active exactly for id. */
  method MarkItems(items: seq<OverflowItem>, id: string) returns (r: seq<OverflowItem>)
    ensures |r| == |items| && forall i :: 0 <= i < |items| ==> r[i] == OverflowItem(items[i].tab, items[i].tab == id)
  {
    r := [];
    var i := 0;
    while i < |items|
      invariant 0 <= i <= |items| && |r| == i
      invariant forall j :: 0 <= j < i ==> r[j] == OverflowItem(items[j].tab, items[j].tab == id)
    {
      r := r + [OverflowItem(items[i].tab, items[i].tab == id)];
      i := i + 1;
    }
  }

  method TotalWidth(widths: seq<nat>) returns (totalWidth: nat)
    ensures totalWidth == Total(widths)
  {
    totalWidth := 0;
    var i := 0;
    while i < |widths|
      invariant 0 <= i <= |widths| && totalWidth == Prefix(widths, i)
    {
      totalWidth := totalWidth + widths[i] + 4;
      i := i + 1;
    }
  }

  /** The second pass of checkOverflow, on a strip that does not fit. */
  method SplitOverflow(widths: seq<nat>, wrapperWidth: int) returns (overflowTabs: seq<nat>, shown: seq<bool>)
    requires Total(widths) > wrapperWidth
    ensures overflowTabs == OverflowIndices(widths, wrapperWidth, |widths|)
    ensures |shown| == |widths| && forall i :: 0 <= i < |widths| ==> shown[i] == !Overflows(widths, wrapperWidth, i)
  {
    var availableWidth := wrapperWidth - 100;
    overflowTabs := [];
    shown := seq(|widths|, i => true);
    var totalWidth := 0;
    var i := 0;
    while i < |widths|
      invariant 0 <= i <= |widths| && |shown| == |widths| && totalWidth == Prefix(widths, i)
      invariant overflowTabs == OverflowIndices(widths, wrapperWidth, i)
      invariant forall j :: 0 <= j < i ==> shown[j] == !Overflows(widths, wrapperWidth, j)
      invariant forall j :: i <= j < |widths| ==> shown[j]
    {
      totalWidth := totalWidth + widths[i] + 4;
      if totalWidth > availableWidth {
        overflowTabs := overflowTabs + [i];
        shown := shown[i := false];
      }
      i := i + 1;
    }
  }

  /** The menu items checkOverflow creates, copying each tab's active class. */
  method BuildItems(ids: seq<string>, active: seq<bool>, overflowTabs: seq<nat>) returns (items: seq<OverflowItem>)
    requires |active| == |ids| && forall j :: 0 <= j < |overflowTabs| ==> overflowTabs[j] < |ids|
    ensures items == ItemsFor(ids, active, overflowTabs)
  {
    items := [];
    var k := 0;
    while k < |overflowTabs|
      invariant 0 <= k <= |overflowTabs|
      invariant items == ItemsFor(ids, active, overflowTabs[..k])
    {
      ItemsForSnoc(ids, active, overflowTabs[..k], overflowTabs[k]);
      assert overflowTabs[..k + 1] == overflowTabs[..k] + [overflowTabs[k]];
      items := items + [OverflowItem(ids[overflowTabs[k]], active[overflowTabs[k]])];
      k := k + 1;
    }
    assert overflowTabs[..k] == overflowTabs;
  }

  /** Items copied from tabs whose active flags follow id are themselves active exactly for id. */
  lemma ItemsForSynced(ids: seq<string>, active: seq<bool>, idx: seq<nat>, id: string)
    requires |active| == |ids| && forall j :: 0 <= j < |idx| ==> idx[j] < |ids|
    requires forall i :: 0 <= i < |ids| ==> active[i] == (ids[i] == id)
    ensures var r := ItemsFor(ids, active, idx); forall k :: 0 <= k < |r| ==> r[k].active == (r[k].tab == id)
  {
  }

  class MosaicTabs {
    const ids: seq<string>              // data-tab of each tab of this container
    const contentIds: seq<Option<string>>
    const hashNavigation: bool
    const hasSelect: bool               // the mobile select was created
    const overflowReady: bool           // overflow container, wrapper and tab list exist
    var currentTab: Option<string>
    var tabActive: seq<bool>
    var contentActive: seq<bool>
    var selectValue: string
    var overflowItems: seq<OverflowItem>
    var overflowShown: bool
    var tabShown: seq<bool>
    var menuOpen: bool
    var urlHash: string
    var changes: seq<Change>

    ghost predicate Valid()
      reads this
    {
      Sized() && (currentTab.Some? ==> Synced(currentTab.value))
    }

    ghost predicate Sized()
      reads this
    {
      |tabActive| == |ids| && |tabShown| == |ids| && |contentActive| == |contentIds|
    }

    /** Exactly the tabs, panels and overflow items of `id` carry the active class. */
    ghost predicate Synced(id: string)
      reads this
      requires |tabActive| == |ids| && |contentActive| == |contentIds|
    {
      && (forall i :: 0 <= i < |ids| ==> tabActive[i] == (ids[i] == id))
      && (forall i :: 0 <= i < |contentIds| ==> contentActive[i] == (contentIds[i] == Some(id)))
      && (forall k :: 0 <= k < |overflowItems| ==> overflowItems[k].active == (overflowItems[k].tab == id))
    }

    /**
     * new MosaicTabs(container, options): the tabs, panels and their marked
     * active classes as found in the page, then the initial activation and the
     * first overflow check.
     */
    constructor(ids: seq<string>, contentIds: seq<Option<string>>, marked: seq<bool>, contentMarked: seq<bool>,
                hashNavigation: bool, hash: string, hasSelect: bool, overflowReady: bool,
                wrapperWidth: int, widths: seq<nat>)
      requires |marked| == |ids| && |contentMarked| == |contentIds| && |widths| == |ids|
      ensures Valid()
      ensures this.ids == ids && this.contentIds == contentIds
      ensures currentTab == InitialTab(ids, marked, hashNavigation, hash)
      ensures changes == if currentTab.Some? then [Change(currentTab.value, None)] else []
      ensures overflowReady ==> forall i :: 0 <= i < |ids| ==> tabShown[i] == !Overflows(widths, wrapperWidth, i)
    {
      this.ids := ids;
      this.contentIds := contentIds;
      this.hashNavigation := hashNavigation;
      this.hasSelect := hasSelect;
      this.overflowReady := overflowReady;
      currentTab := None;
      tabActive := marked;
      contentActive := contentMarked;
      selectValue := "";
      overflowItems := [];
      overflowShown := false;
      tabShown := seq(|ids|, i => true);
      menuOpen := false;
      urlHash := hash;
      changes := [];
      new;
      var initialTab := InitialTab(ids, marked, hashNavigation, hash);
      if initialTab.Some? {
        Activate(initialTab.value);
      }
      CheckOverflow(wrapperWidth, widths);
    }

    /**
     * What activate(tabId) leaves behind, from the state before the call: the
     * current tab changes nothing; any other id becomes current, exactly its
     * tabs, panels and menu items are marked, the select and the hash follow
     * when present, and one change is reported.
     */
    twostate predicate Activated(tabId: string)
      reads this
    {
      if old(currentTab) == Some(tabId) then
        currentTab == old(currentTab) && tabActive == old(tabActive) && contentActive == old(contentActive) &&
        overflowItems == old(overflowItems) && selectValue == old(selectValue) && urlHash == old(urlHash) &&
        changes == old(changes)
      else
        && currentTab == Some(tabId)
        && |tabActive| == |ids| && (forall i :: 0 <= i < |ids| ==> tabActive[i] == (ids[i] == tabId))
        && |contentActive| == |contentIds| && (forall i :: 0 <= i < |contentIds| ==> contentActive[i] == (contentIds[i] == Some(tabId)))
        && |overflowItems| == |old(overflowItems)|
        && (forall i :: 0 <= i < |overflowItems| ==>
              overflowItems[i] == OverflowItem(old(overflowItems)[i].tab, old(overflowItems)[i].tab == tabId))
        && selectValue == (if hasSelect then tabId else old(selectValue))
        && urlHash == (if hashNavigation then "#" + tabId else old(urlHash))
        && changes == old(changes) + [Change(tabId, old(currentTab))]
    }

    method Activate(tabId: string)
      requires Valid()
      modifies this
      ensures Valid() && Activated(tabId)
      ensures tabShown == old(tabShown) && overflowShown == old(overflowShown) && menuOpen == old(menuOpen)
    {
      if currentTab == Some(tabId) {
        return;
      }
      var previousTab := currentTab;
      currentTab := Some(tabId);
      MarkActive(tabId);
      if hasSelect {
        selectValue := tabId;
      }
      if hashNavigation {
        urlHash := "#" + tabId;
      }
      changes := changes + [Change(tabId, previousTab)];
    }

    /** The class updates of activateTab: tabs, panels and overflow items carry the active class exactly for `tabId`. */
    method MarkActive(tabId: string)
      requires Sized()
      modifies this
      ensures Sized() && Synced(tabId)
      ensures forall i :: 0 <= i < |ids| ==> tabActive[i] == (ids[i] == tabId)
      ensures forall i :: 0 <= i < |contentIds| ==> contentActive[i] == (contentIds[i] == Some(tabId))
      ensures |overflowItems| == |old(overflowItems)|
      ensures forall i :: 0 <= i < |overflowItems| ==>
        overflowItems[i] == OverflowItem(old(overflowItems)[i].tab, old(overflowItems)[i].tab == tabId)
      ensures currentTab == old(currentTab) && selectValue == old(selectValue) && urlHash == old(urlHash)
      ensures changes == old(changes) && tabShown == old(tabShown) && overflowShown == old(overflowShown)
      ensures menuOpen == old(menuOpen)
    {
      tabActive := MarkTabs(ids, tabId);
      contentActive := MarkContents(contentIds, tabId);
      overflowItems := MarkItems(overflowItems, tabId);
    }

    /** The hashchange listener: only an id naming an existing tab is activated. */
    method OnHashChange(hash: string)
      requires Valid()
      modifies this
      ensures Valid()
      ensures hash != "" && hash[1..] in ids ==> Activated(hash[1..])
      ensures (hash == "" || hash[1..] !in ids) ==>
        currentTab == old(currentTab) && tabActive == old(tabActive) && contentActive == old(contentActive) &&
        overflowItems == old(overflowItems) && selectValue == old(selectValue) && urlHash == old(urlHash) &&
        changes == old(changes)
      ensures tabShown == old(tabShown) && overflowShown == old(overflowShown) && menuOpen == old(menuOpen)
    {
      if hash != "" {
        var hashTab := hash[1..];
        var tab := FindTab(ids, hashTab);
        if tab.Some? {
          Activate(hashTab);
        }
      }
    }

    /**
     * checkOverflow with the tabs' current widths: show every tab, then hide
     * and list the ones that do not fit.
     */
    method CheckOverflow(wrapperWidth: int, widths: seq<nat>)
      requires Valid() && |widths| == |ids|
      modifies this
      ensures Valid()
      ensures overflowReady ==>
        && (forall i :: 0 <= i < |ids| ==> tabShown[i] == !Overflows(widths, wrapperWidth, i))
        && overflowItems == ItemsFor(ids, tabActive, OverflowIndices(widths, wrapperWidth, |ids|))
        && (overflowShown <==> |overflowItems| > 0)
      ensures !overflowReady ==> tabShown == old(tabShown) && overflowItems == old(overflowItems) && overflowShown == old(overflowShown)
      ensures currentTab == old(currentTab) && tabActive == old(tabActive) && contentActive == old(contentActive)
      ensures changes == old(changes) && menuOpen == old(menuOpen) && selectValue == old(selectValue) && urlHash == old(urlHash)
    {
      if !overflowReady {
        return;
      }
      overflowShown := false;
      tabShown := seq(|ids|, i => true);
      var totalWidth := TotalWidth(widths);
      if totalWidth <= wrapperWidth {
        overflowItems := [];
        OverflowWhenTooWide(widths, wrapperWidth);
        NoOverflowIndices(widths, wrapperWidth, |ids|);
        return;
      }
      var overflowTabs, shown := SplitOverflow(widths, wrapperWidth);
      tabShown := shown;
      overflowItems := BuildItems(ids, tabActive, overflowTabs);
      if |overflowTabs| > 0 {
        overflowShown := true;
      }
      if currentTab.Some? {
        ItemsForSynced(ids, tabActive, overflowTabs, currentTab.value);
      }
    }

    /** A click on an item of the overflow menu: its tab is activated and the menu closes. */
    method ClickOverflowItem(k: nat)
      requires Valid() && k < |overflowItems|
      modifies this
      ensures Valid() && Activated(old(overflowItems)[k].tab) && !menuOpen
      ensures tabShown == old(tabShown) && overflowShown == old(overflowShown)
    {
      Activate(overflowItems[k].tab);
      menuOpen := false;
    }

    /** The "More" button toggles this menu. Menus of other tab sets are not modelled. */
    method ToggleMenu()
      requires Valid()
      modifies this
      ensures Valid() && menuOpen == !old(menuOpen)
      ensures currentTab == old(currentTab) && tabActive == old(tabActive) && contentActive == old(contentActive)
      ensures overflowItems == old(overflowItems) && selectValue == old(selectValue) && urlHash == old(urlHash)
      ensures changes == old(changes) && tabShown == old(tabShown) && overflowShown == old(overflowShown)
    {
      menuOpen := !menuOpen;
    }

    /** A document click outside the overflow container closes the menu. */
    method ClickOutside()
      requires Valid()
      modifies this
      ensures Valid() && !menuOpen
      ensures currentTab == old(currentTab) && tabActive == old(tabActive) && contentActive == old(contentActive)
      ensures overflowItems == old(overflowItems) && selectValue == old(selectValue) && urlHash == old(urlHash)
      ensures changes == old(changes) && tabShown == old(tabShown) && overflowShown == old(overflowShown)
    {
      menuOpen := false;
    }

    /** A click on tab i, or choosing its option in the mobile select. */
    method ClickTab(i: nat)
      requires Valid() && i < |ids|
      modifies this
      ensures Valid() && Activated(ids[i])
      ensures Synced(ids[i])
      ensures tabShown == old(tabShown) && overflowShown == old(overflowShown) && menuOpen == old(menuOpen)
    {
      Activate(ids[i]);
    }
  }
}
