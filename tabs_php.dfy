/**
 * The PHP tabs builder (Mosaic_Tabs): tabs are added under keys, one key is the
 * active tab, and render prints the container with an optional mobile select,
 * the tab navigation and one content panel per tab.
 */
module TabsBuilder {
  import opened Strings
  import opened Php
  import opened Html

  /** The constructor's defaults for the tabs options. */
  function TabsDefaults(): Array {
    [Entry("id", Str("")), Entry("class", Str("")), Entry("style", Str("")),
     Entry("mobile_select", Bool(true)), Entry("overflow_menu", Bool(true)), Entry("hash_navigation", Bool(false))]
  }

  /** add_tab's defaults for one tab. */
  function TabDefaults(labelText: string, content: string): Array {
    [Entry("label", Str(labelText)), Entry("content", Str(content)), Entry("icon", Str("")),
     Entry("count", Null), Entry("active", Bool(false))]
  }

  lemma DefaultsWellFormed(labelText: string, content: string)
    ensures WellFormed(TabsDefaults()) && WellFormed(TabDefaults(labelText, content))
  {
  }

  /** The settings array stored for one tab. */
  function TabOf(e: Entry): Array {
    ArrOf(e.val)
  }

  /**
   * The active key render uses: an empty active_tab (PHP's empty(), so '' and
   * '0') is replaced by the first key.
   */
  function EffectiveActive(tabs: Array, active: string): (r: string)
    requires tabs != []
    ensures Truthy(Str(active)) ==> r == active
    ensures Empty(Str(active)) ==> r == tabs[0].key
  {
    if Empty(Str(active)) then tabs[0].key else active
  }

  // ---------------------------------------------------------------------------
  // The markup of one tab in each of the three places it appears.
  // ---------------------------------------------------------------------------

  datatype Part = ButtonPart | OptionPart | PanelPart

  function ButtonClasses(isActive: bool): seq<string> {
    ["mosaic-tab"] + (if isActive then ["mosaic-tab-active"] else [])
  }

  function PanelClasses(isActive: bool): seq<string> {
    ["mosaic-tab-content"] + (if isActive then ["mosaic-tab-content-active"] else [])
  }

  /** The count span; it follows the label after one space. */
  function CountSpan(count: Value): Node {
    Element("span", [AttrLit("class", "mosaic-tab-count")], [Escaped(EscHtml, ToStr(count))])
  }

  function NavButton(e: Entry, active: string): Node {
    var tab := TabOf(e);
    Element("button",
      [AttrLit("type", "button"), ClassAttr(ButtonClasses(e.key == active)),
       AttrEsc("data-tab", e.key), AttrEsc("data-label", GetStr(tab, "label"))],
      (if TruthyAt(tab, "icon") then [Dashicon(GetStr(tab, "icon"))] else [])
      + [Escaped(EscHtml, GetStr(tab, "label"))]
      + (if Get(tab, "count") != Null then [Raw(" "), CountSpan(Get(tab, "count"))] else []))
  }

  function SelectOption(e: Entry, active: string): Node {
    Element("option",
      [AttrEsc("value", e.key)] + (if e.key == active then [Bare(Lit("selected"))] else []),
      [Escaped(EscHtml, GetStr(TabOf(e), "label"))])
  }

  /** A content panel; the content is printed as given. */
  function Panel(e: Entry, active: string): Node {
    Element("div", [ClassAttr(PanelClasses(e.key == active)), AttrEsc("data-tab", e.key)],
      [Raw(GetStr(TabOf(e), "content"))])
  }

  function TabNode(part: Part, e: Entry, active: string): Node {
    match part
    case ButtonPart => NavButton(e, active)
    case OptionPart => SelectOption(e, active)
    case PanelPart => Panel(e, active)
  }

  /** One node per tab, in insertion order. */
  function Each(part: Part, tabs: Array, active: string): (r: seq<Node>)
    ensures |r| == |tabs|
  {
    seq(|tabs|, i requires 0 <= i < |tabs| => TabNode(part, tabs[i], active))
  }

  lemma EachSnoc(part: Part, tabs: Array, i: nat, active: string)
    requires i < |tabs|
    ensures Each(part, tabs[..i + 1], active) == Each(part, tabs[..i], active) + [TabNode(part, tabs[i], active)]
  {
  }

  const overflowBox := Element("div", [AttrLit("class", "mosaic-tabs-overflow"), AttrLit("style", "display: none;")], [])

  function Navigation(options: Array, tabs: Array, active: string): Node {
    Element("div", [AttrLit("class", "mosaic-tabs-wrapper")],
      [Element("div", [AttrLit("class", "mosaic-tabs")], Each(ButtonPart, tabs, active))]
      + (if TruthyAt(options, "overflow_menu") then [overflowBox] else []))
  }

  function MobileSelect(tabs: Array, active: string): Node {
    Element("div", [AttrLit("class", "mosaic-tabs-mobile-select")],
      [Element("select", [AttrLit("class", "mosaic-select"), AttrLit("id", "mosaic-mobile-tab-selector")],
        Each(OptionPart, tabs, active))])
  }

  function ContainerClasses(options: Array): seq<string> {
    ["mosaic-tabs-container"]
    + (if TruthyAt(options, "style") then ["mosaic-tabs-" + GetStr(options, "style")] else [])
    + (if TruthyAt(options, "class") then [GetStr(options, "class")] else [])
  }

  /**
   * The attribute array render hands to build_attrs: class and data-mosaic-tabs,
   * then data-mosaic-tabs-hash when hash navigation is on, then id when set.
   */
  function ContainerAttrs(options: Array): Array {
    [Entry("class", Str(Implode(" ", ContainerClasses(options)))), Entry("data-mosaic-tabs", Str("true"))]
    + (if TruthyAt(options, "hash_navigation") then [Entry("data-mosaic-tabs-hash", Str("true"))] else [])
    + (if TruthyAt(options, "id") then [Entry("id", Get(options, "id"))] else [])
  }

  /** ContainerAttrs is the array render builds by assigning `$attrs[key] = value` in turn. */
  lemma ContainerAttrsAssigned(options: Array)
    ensures var base := [Entry("class", Str(Implode(" ", ContainerClasses(options)))), Entry("data-mosaic-tabs", Str("true"))];
            var withHash := if TruthyAt(options, "hash_navigation") then Set(base, "data-mosaic-tabs-hash", Str("true")) else base;
            ContainerAttrs(options) == if TruthyAt(options, "id") then Set(withHash, "id", Get(options, "id")) else withHash
  {
    var base := [Entry("class", Str(Implode(" ", ContainerClasses(options)))), Entry("data-mosaic-tabs", Str("true"))];
    assert !HasKey(base, "data-mosaic-tabs-hash");
    var withHash := if TruthyAt(options, "hash_navigation") then Set(base, "data-mosaic-tabs-hash", Str("true")) else base;
    assert !HasKey(withHash, "id") by {
      if TruthyAt(options, "hash_navigation") {
        assert withHash == base + [Entry("data-mosaic-tabs-hash", Str("true"))];
      }
    }
  }

  function Container(options: Array, tabs: Array, active: string): Node {
    ContainerWith(ContainerAttrs(options), options, tabs, active)
  }

  /** The container element around the given attribute array. */
  function ContainerWith(attrs: Array, options: Array, tabs: Array, active: string): Node {
    Element("div", AttrList(PlainStyle, attrs),
      (if TruthyAt(options, "mobile_select") then [MobileSelect(tabs, active)] else [])
      + [Navigation(options, tabs, active)]
      + Each(PanelPart, tabs, active))
  }

  /** What render returns for this state. */
  function RenderText(wp: Wp, options: Array, tabs: Array, active: string): string {
    if tabs == [] then "" else Serialize(wp, Container(options, tabs, EffectiveActive(tabs, active)))
  }

  // ---------------------------------------------------------------------------
  // Properties of the markup.
  // ---------------------------------------------------------------------------

  /** No tabs print nothing; otherwise the first key stands in for an empty active tab. */
  lemma RenderDefaultsActive(wp: Wp, options: Array, tabs: Array, active: string)
    ensures tabs == [] ==> RenderText(wp, options, tabs, active) == ""
    ensures tabs != [] && Empty(Str(active)) ==>
      RenderText(wp, options, tabs, active) == RenderText(wp, options, tabs, tabs[0].key)
  {
  }

  /** Storing the active key render chose does not change what the next render prints. */
  lemma RenderAgainSame(wp: Wp, options: Array, tabs: Array, active: string)
    requires tabs != []
    ensures RenderText(wp, options, tabs, EffectiveActive(tabs, active)) == RenderText(wp, options, tabs, active)
  {
  }

  function IsButtonActive(n: Node): bool {
    "mosaic-tab-active" in ClassNames(n)
  }

  function IsPanelActive(n: Node): bool {
    "mosaic-tab-content-active" in ClassNames(n)
  }

  function IsSelected(n: Node): bool {
    n.Element? && Bare(Lit("selected")) in n.attrs
  }

  /** A tab is marked active in each place exactly when its key is the active key. */
  lemma MarkedIffActive(e: Entry, active: string)
    ensures IsButtonActive(NavButton(e, active)) <==> e.key == active
    ensures IsPanelActive(Panel(e, active)) <==> e.key == active
    ensures IsSelected(SelectOption(e, active)) <==> e.key == active
  {
    ButtonMarkedIffActive(e, active);
    PanelMarkedIffActive(e, active);
  }

  lemma ButtonMarkedIffActive(e: Entry, active: string)
    ensures IsButtonActive(NavButton(e, active)) <==> e.key == active
  {
    var n := NavButton(e, active);
    ButtonClassIff(e.key == active, n.attrs[2..]);
    assert n.attrs == [AttrLit("type", "button")] + ([ClassAttr(ButtonClasses(e.key == active))] + n.attrs[2..]);
  }

  /** After the type attribute, the class attribute names the active class exactly when the tab is active. */
  lemma ButtonClassIff(isActive: bool, rest: seq<Attr>)
    ensures var ats := [AttrLit("type", "button")] + ([ClassAttr(ButtonClasses(isActive))] + rest);
      ("mosaic-tab-active" in ClassesIn(ats)) <==> isActive
  {
    var b := ButtonClasses(isActive);
    assert ' ' !in "mosaic-tab" && ' ' !in "mosaic-tab-active";
    ClassAttrNames(b, rest);
    if !isActive {
      assert "mosaic-tab-active" != "mosaic-tab";
    }
  }

  lemma PanelMarkedIffActive(e: Entry, active: string)
    ensures IsPanelActive(Panel(e, active)) <==> e.key == active
  {
    var p := PanelClasses(e.key == active);
    assert ' ' !in "mosaic-tab-content" && ' ' !in "mosaic-tab-content-active";
    ClassAttrNames(p, Panel(e, active).attrs[1..]);
    assert Panel(e, active).attrs == [ClassAttr(p)] + Panel(e, active).attrs[1..];
    if e.key != active {
      assert "mosaic-tab-content-active" != "mosaic-tab-content";
    }
  }

  /** marked[i] is set for exactly one i when `present`, and for none otherwise. */
  predicate ExactlyOneIff(marked: seq<bool>, present: bool) {
    (present <==> exists i :: 0 <= i < |marked| && marked[i])
    && forall i, j :: 0 <= i < |marked| && 0 <= j < |marked| && marked[i] && marked[j] ==> i == j
  }

  function ButtonMarks(tabs: Array, active: string): (r: seq<bool>)
    ensures |r| == |tabs|
  {
    var ns := Each(ButtonPart, tabs, active);
    seq(|ns|, i requires 0 <= i < |ns| => IsButtonActive(ns[i]))
  }

  function PanelMarks(tabs: Array, active: string): (r: seq<bool>)
    ensures |r| == |tabs|
  {
    var ns := Each(PanelPart, tabs, active);
    seq(|ns|, i requires 0 <= i < |ns| => IsPanelActive(ns[i]))
  }

  function SelectMarks(tabs: Array, active: string): (r: seq<bool>)
    ensures |r| == |tabs|
  {
    var ns := Each(OptionPart, tabs, active);
    seq(|ns|, i requires 0 <= i < |ns| => IsSelected(ns[i]))
  }

  /**
   * In the navigation, the panels and the mobile select exactly the tab whose
   * key is the active key is marked, and none when the active key names no tab.
   */
  lemma ExactlyActiveTabMarked(tabs: Array, active: string)
    requires WellFormed(tabs)
    ensures ExactlyOneIff(ButtonMarks(tabs, active), HasKey(tabs, active))
    ensures ExactlyOneIff(PanelMarks(tabs, active), HasKey(tabs, active))
    ensures ExactlyOneIff(SelectMarks(tabs, active), HasKey(tabs, active))
  {
    forall i | 0 <= i < |tabs|
      ensures ButtonMarks(tabs, active)[i] == (tabs[i].key == active)
      ensures PanelMarks(tabs, active)[i] == (tabs[i].key == active)
      ensures SelectMarks(tabs, active)[i] == (tabs[i].key == active)
    {
      MarkedIffActive(tabs[i], active);
    }
  }

  predicate IsCountSpan(n: Node) {
    n.Element? && n.tag == "span" && n.attrs == [AttrLit("class", "mosaic-tab-count")]
  }

  predicate HasCountBadge(n: Node) {
    n.Element? && exists k :: 0 <= k < |n.kids| && IsCountSpan(n.kids[k])
  }

  /** The count badge is printed exactly when the tab's count is not null, so a count of 0 shows. */
  lemma CountBadgeIffCount(e: Entry, active: string)
    ensures HasCountBadge(NavButton(e, active)) <==> Get(TabOf(e), "count") != Null
  {
    var tab := TabOf(e);
    var n := NavButton(e, active);
    if Get(tab, "count") != Null {
      assert n.kids[|n.kids| - 1] == CountSpan(Get(tab, "count"));
    }
  }

  /** The hash-navigation attribute is present, as 'true', exactly when hash_navigation is truthy. */
  lemma HashAttrIffHashNavigation(options: Array)
    ensures HasKey(ContainerAttrs(options), "data-mosaic-tabs-hash") <==> TruthyAt(options, "hash_navigation")
    ensures TruthyAt(options, "hash_navigation") ==> Get(ContainerAttrs(options), "data-mosaic-tabs-hash") == Str("true")
  {
    var a := ContainerAttrs(options);
    if TruthyAt(options, "hash_navigation") {
      assert a[2].key == "data-mosaic-tabs-hash";
      GetFirst(a, "data-mosaic-tabs-hash", 2);
    }
  }

  // ---------------------------------------------------------------------------
  // The builder.
  // ---------------------------------------------------------------------------

  class Tabs {
    var options: Array
    var tabs: Array
    var activeTab: string

    ghost predicate Valid()
      reads this
    {
      WellFormed(options) && WellFormed(tabs)
    }

    /** Caller options override the defaults. */
    constructor(opts: Array)
      requires WellFormed(opts)
      ensures Valid()
      ensures options == ParseArgs(opts, TabsDefaults()) && tabs == [] && activeTab == ""
    {
      DefaultsWellFormed("", "");
      MergeWellFormed(TabsDefaults(), opts);
      options := ParseArgs(opts, TabsDefaults());
      tabs := [];
      activeTab := "";
    }

    /**
     * Stores the tab's settings under its key (a new key goes last, an existing
     * key keeps its place); a truthy 'active' in the caller's options makes it the
     * active tab.
     */
    method AddTab(key: string, labelText: string, content: string, opts: Array)
      modifies this
      requires Valid()
      ensures Valid()
      ensures tabs == Set(old(tabs), key, Arr(ParseArgs(opts, TabDefaults(labelText, content))))
      ensures Keys(tabs) == if HasKey(old(tabs), key) then Keys(old(tabs)) else Keys(old(tabs)) + [key]
      ensures forall k :: Get(tabs, k) == if k == key then Arr(ParseArgs(opts, TabDefaults(labelText, content))) else Get(old(tabs), k)
      ensures activeTab == if Truthy(Get(opts, "active")) then key else old(activeTab)
      ensures options == old(options)
    {
      var settings := Arr(ParseArgs(opts, TabDefaults(labelText, content)));
      SetWellFormed(tabs, key, settings);
      forall k ensures Get(Set(tabs, key, settings), k) == if k == key then settings else Get(tabs, k) {
        SetGet(tabs, key, settings, k);
      }
      tabs := Set(tabs, key, settings);
      if Truthy(Get(opts, "active")) {
        activeTab := key;
      }
    }

    method SetActive(key: string)
      modifies this
      requires Valid()
      ensures Valid()
      ensures activeTab == key && tabs == old(tabs) && options == old(options)
    {
      activeTab := key;
    }

    /** Replaces the content of an existing tab; an unknown key changes nothing. */
    method SetContent(key: string, content: string)
      modifies this
      requires Valid()
      ensures Valid()
      ensures IsSet(old(tabs), key) ==>
        tabs == Set(old(tabs), key, Arr(Set(GetArray(old(tabs), key), "content", Str(content))))
      ensures !IsSet(old(tabs), key) ==> tabs == old(tabs)
      ensures Keys(tabs) == Keys(old(tabs))
      ensures activeTab == old(activeTab) && options == old(options)
    {
      GetAbsent(tabs, key);
      if IsSet(tabs, key) {
        var settings := Arr(Set(GetArray(tabs, key), "content", Str(content)));
        SetWellFormed(tabs, key, settings);
        tabs := Set(tabs, key, settings);
      }
    }

    /** The foreach loop shared by the three renderers: one node per tab, appended in order. */
    method RenderEach(wp: Wp, part: Part) returns (html: string)
      ensures html == SerializeAll(wp, Each(part, tabs, activeTab))
    {
      html := "";
      var i := 0;
      while i < |tabs|
        invariant 0 <= i <= |tabs|
        invariant html == SerializeAll(wp, Each(part, tabs[..i], activeTab))
      {
        EachSnoc(part, tabs, i, activeTab);
        SerializeAllSnoc(wp, Each(part, tabs[..i], activeTab), TabNode(part, tabs[i], activeTab));
        html := html + Serialize(wp, TabNode(part, tabs[i], activeTab));
        i := i + 1;
      }
      assert tabs[..i] == tabs;
    }

    method RenderNavigation(wp: Wp) returns (html: string)
      ensures html == Serialize(wp, Navigation(options, tabs, activeTab))
    {
      var buttons := RenderEach(wp, ButtonPart);
      var inner := StartTag(wp, "div", [AttrLit("class", "mosaic-tabs")]) + buttons + EndTag("div");
      var tail := "";
      if TruthyAt(options, "overflow_menu") {
        tail := Serialize(wp, overflowBox);
      }
      html := StartTag(wp, "div", [AttrLit("class", "mosaic-tabs-wrapper")]) + inner + tail + EndTag("div");

      var strip := Element("div", [AttrLit("class", "mosaic-tabs")], Each(ButtonPart, tabs, activeTab));
      var rest: seq<Node> := if TruthyAt(options, "overflow_menu") then [overflowBox] else [];
      assert SerializeAll(wp, [strip] + rest) == inner + tail by {
        SerializeTags(wp, "div", [AttrLit("class", "mosaic-tabs")], Each(ButtonPart, tabs, activeTab));
        SerializeAllSingle(wp, strip);
        SerializeAllAppend(wp, [strip], rest);
        if rest != [] {
          SerializeAllSingle(wp, overflowBox);
        }
      }
      SerializeTags(wp, "div", [AttrLit("class", "mosaic-tabs-wrapper")], [strip] + rest);
      Regroup4(StartTag(wp, "div", [AttrLit("class", "mosaic-tabs-wrapper")]), inner, tail, EndTag("div"));
    }

    method RenderMobileSelect(wp: Wp) returns (html: string)
      ensures html == Serialize(wp, MobileSelect(tabs, activeTab))
    {
      var options := RenderEach(wp, OptionPart);
      var selectAttrs := [AttrLit("class", "mosaic-select"), AttrLit("id", "mosaic-mobile-tab-selector")];
      html := StartTag(wp, "div", [AttrLit("class", "mosaic-tabs-mobile-select")]) + StartTag(wp, "select", selectAttrs);
      html := html + options + EndTag("select") + EndTag("div");

      var select := Element("select", selectAttrs, Each(OptionPart, tabs, activeTab));
      SerializeTags(wp, "select", selectAttrs, Each(OptionPart, tabs, activeTab));
      SerializeAllSingle(wp, select);
      SerializeTags(wp, "div", [AttrLit("class", "mosaic-tabs-mobile-select")], [select]);
    }

    method RenderContent(wp: Wp) returns (html: string)
      ensures html == SerializeAll(wp, Each(PanelPart, tabs, activeTab))
    {
      html := RenderEach(wp, PanelPart);
    }

    /** The container render prints once the active tab is settled. */
    method RenderContainer(wp: Wp, attrArray: Array) returns (html: string)
      ensures html == Serialize(wp, ContainerWith(attrArray, options, tabs, activeTab))
    {
      var attrs := BuildAttrs(wp, PlainStyle, attrArray);
      html := OpenTag("div", attrs);
      var select := "";
      if TruthyAt(options, "mobile_select") {
        select := RenderMobileSelect(wp);
      }
      var nav := RenderNavigation(wp);
      var panels := RenderContent(wp);
      html := html + select + nav + panels + EndTag("div");

      var head: seq<Node> := if TruthyAt(options, "mobile_select") then [MobileSelect(tabs, activeTab)] else [];
      if head != [] {
        SerializeAllSingle(wp, MobileSelect(tabs, activeTab));
      }
      SerializeParts(wp, "div", AttrList(PlainStyle, attrArray), head,
        Navigation(options, tabs, activeTab), Each(PanelPart, tabs, activeTab));
    }

    /**
     * Prints the tabs. With no tabs the result is '' and nothing changes;
     * otherwise an empty active tab is first replaced by the first key, and kept.
     */
    method Render(wp: Wp) returns (html: string)
      modifies this
      requires Valid()
      ensures Valid()
      ensures html == RenderText(wp, old(options), old(tabs), old(activeTab))
      ensures activeTab == if old(tabs) == [] then old(activeTab) else EffectiveActive(old(tabs), old(activeTab))
      ensures tabs == old(tabs) && options == old(options)
    {
      if tabs == [] {
        return "";
      }
      if Empty(Str(activeTab)) {
        activeTab := tabs[0].key;
      }
      html := RenderContainer(wp, ContainerAttrs(options));
    }

    /** Prints only the navigation, defaulting the active tab as render does. */
    method RenderNavOnly(wp: Wp) returns (html: string)
      modifies this
      requires Valid()
      ensures Valid()
      ensures activeTab == if old(tabs) != [] && Empty(Str(old(activeTab))) then old(tabs)[0].key else old(activeTab)
      ensures html == Serialize(wp, Navigation(options, tabs, activeTab))
      ensures tabs == old(tabs) && options == old(options)
    {
      if Empty(Str(activeTab)) && tabs != [] {
        activeTab := tabs[0].key;
      }
      html := RenderNavigation(wp);
    }
  }
}
