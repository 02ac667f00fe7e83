/**
 * The PHP card builder (Mosaic_Card): a card with an optional header, body and
 * footer, and the static stat, status and metric tiles and the stats grid. Its
 * build_attrs_static is the plain writer of Html ('' and null are left out).
 */
module CardBuilder {
  import opened Strings
  import opened Php
  import opened Html

  function CardDefaults(): Array {
    [Entry("id", Str("")), Entry("class", Str("")), Entry("variant", Str("")), Entry("active", Bool(false))]
  }

  /** The header array set_header stores; it is empty until set_header is called. */
  function HeaderOf(title: string, actions: string, icon: string): Array {
    [Entry("title", Str(title)), Entry("actions", Str(actions)), Entry("icon", Str(icon))]
  }

  function CardClasses(o: Array): seq<string> {
    ["mosaic-card"]
    + (if TruthyAt(o, "variant") then ["mosaic-card-" + GetStr(o, "variant")] else [])
    + (if TruthyAt(o, "active") then ["mosaic-card-active"] else [])
    + (if TruthyAt(o, "class") then [GetStr(o, "class")] else [])
  }

  /** class, then id when set: the attribute array of the card and of the status and metric tiles. */
  function ClassAndId(classes: seq<string>, o: Array): Array {
    [Entry("class", Str(Implode(" ", classes)))] + (if TruthyAt(o, "id") then [Entry("id", Get(o, "id"))] else [])
  }

  function HeaderNodes(header: Array): seq<Node> {
    if header == [] then []
    else
      [Element("div", [AttrLit("class", "mosaic-card-header")],
        [Element("h3", [AttrLit("class", "mosaic-card-header-title")],
           (if TruthyAt(header, "icon") then [Dashicon(GetStr(header, "icon"))] else [])
           + [Escaped(EscHtml, GetStr(header, "title"))])]
        + (if TruthyAt(header, "actions") then [Raw(GetStr(header, "actions"))] else []))]
  }

  /** The body or footer block: its content as given, present only when the content is truthy. */
  function SectionNodes(cls: string, content: string): seq<Node> {
    if Truthy(Str(content)) then [Element("div", [AttrLit("class", cls)], [Raw(content)])] else []
  }

  function CardKids(header: Array, body: string, footer: string): seq<Node> {
    HeaderNodes(header) + SectionNodes("mosaic-card-body", body) + SectionNodes("mosaic-card-footer", footer)
  }

  /** What render prints. */
  function CardNode(o: Array, header: Array, body: string, footer: string): Node {
    Element("div", AttrList(PlainStyle, ClassAndId(CardClasses(o), o)), CardKids(header, body, footer))
  }

  // ---------------------------------------------------------------------------
  // stat().
  // ---------------------------------------------------------------------------

  function StatDefaults(): Array {
    [Entry("id", Str("")), Entry("class", Str("")), Entry("variant", Str("primary")), Entry("icon", Str("")),
     Entry("meta", Str("")), Entry("clickable", Bool(false)), Entry("active", Bool(false)), Entry("filter", Str("")),
     Entry("attrs", Arr([]))]
  }

  function StatClasses(o: Array): seq<string> {
    ["mosaic-stat-card", "mosaic-stat-card-" + GetStr(o, "variant")]
    + (if TruthyAt(o, "clickable") then ["mosaic-stat-card-clickable"] else [])
    + (if TruthyAt(o, "active") then ["mosaic-stat-card-active"] else [])
    + (if TruthyAt(o, "class") then [GetStr(o, "class")] else [])
  }

  /** The caller's attrs with the computed class merged over them, then id and data-filter assigned when set. */
  function StatAttrs(o: Array): Array {
    var merged := Merge(GetArray(o, "attrs"), [Entry("class", Str(Implode(" ", StatClasses(o))))]);
    var withId := if TruthyAt(o, "id") then Set(merged, "id", Get(o, "id")) else merged;
    if TruthyAt(o, "filter") then Set(withId, "data-filter", Get(o, "filter")) else withId
  }

  function StatLabelKids(labelValue: Value, o: Array): seq<Node> {
    [Escaped(EscHtml, ToStr(labelValue))]
    + (if TruthyAt(o, "icon") then [Raw(" "), Dashicon(GetStr(o, "icon"))] else [])
  }

  function StatMeta(o: Array): seq<Node> {
    if TruthyAt(o, "meta") then [Element("div", [AttrLit("class", "mosaic-stat-card-meta")], [Escaped(EscHtml, GetStr(o, "meta"))])] else []
  }

  function StatValueNode(value: Value): Node {
    Element("div", [AttrLit("class", "mosaic-stat-card-value")], [Escaped(EscHtml, ToStr(value))])
  }

  /** A stat card for label and value, with the caller's options over the stat defaults. */
  function StatNode(labelValue: Value, value: Value, options: Array): Node {
    var o := ParseArgs(options, StatDefaults());
    Element("div", AttrList(PlainStyle, StatAttrs(o)),
      [Element("h3", [AttrLit("class", "mosaic-stat-card-label")], StatLabelKids(labelValue, o)), StatValueNode(value)]
      + StatMeta(o))
  }

  // ---------------------------------------------------------------------------
  // status(), metric(), stats_grid().
  // ---------------------------------------------------------------------------

  function StatusIcons(): Array {
    [Entry("healthy", Str("yes-alt")), Entry("warning", Str("warning")), Entry("critical", Str("dismiss"))]
  }

  /** The icon for a status: its entry in the icon map when set, 'info' otherwise. */
  function StatusIcon(status: string): string {
    if IsSet(StatusIcons(), status) then GetStr(StatusIcons(), status) else "info"
  }

  function TileDefaults(): Array {
    [Entry("id", Str("")), Entry("class", Str(""))]
  }

  function WithCustomClass(base: seq<string>, o: Array): seq<string> {
    base + (if TruthyAt(o, "class") then [GetStr(o, "class")] else [])
  }

  function StatusNode(status: string, title: string, message: string, options: Array): Node {
    var o := ParseArgs(options, TileDefaults());
    Element("div", AttrList(PlainStyle, ClassAndId(WithCustomClass(["mosaic-status-card", "mosaic-status-card-" + status], o), o)),
      [Element("div", [AttrLit("class", "mosaic-status-card-icon")], [Dashicon(StatusIcon(status))]),
       Element("div", [AttrLit("class", "mosaic-status-card-content")],
         [Element("h4", [AttrLit("class", "mosaic-status-card-title")], [Escaped(EscHtml, title)])]
         + (if Truthy(Str(message)) then [Element("p", [AttrLit("class", "mosaic-status-card-message")], [Escaped(EscHtml, message)])] else []))])
  }

  function UnitNodes(unit: string): seq<Node> {
    if Truthy(Str(unit)) then [Element("span", [AttrLit("class", "mosaic-metric-tile-unit")], [Escaped(EscHtml, unit)])] else []
  }

  function MetricNode(labelText: string, value: Value, unit: string, options: Array): Node {
    var o := ParseArgs(options, TileDefaults());
    Element("div", AttrList(PlainStyle, ClassAndId(WithCustomClass(["mosaic-metric-tile"], o), o)),
      [Element("div", [AttrLit("class", "mosaic-metric-tile-label")], [Escaped(EscHtml, labelText)]),
       Element("div", [AttrLit("class", "mosaic-metric-tile-value")], [Escaped(EscHtml, ToStr(value))] + UnitNodes(unit))])
  }

  /** The stat card of one grid entry: its 'label' and 'value', with the entry itself as the options. */
  function StatCard(stat: Array): Node {
    StatNode(Get(stat, "label"), Get(stat, "value"), stat)
  }

  function StatCards(stats: seq<Array>): (r: seq<Node>)
    ensures |r| == |stats|
  {
    Map(StatCard, stats)
  }

  function StatsGridNode(stats: seq<Array>): Node {
    Element("div", [AttrLit("class", "mosaic-stats-grid")], StatCards(stats))
  }

  // ---------------------------------------------------------------------------
  // Properties.
  // ---------------------------------------------------------------------------

  /**
   * The card holds header, body and footer in that order: the header exactly
   * when set_header was called, body and footer exactly when truthy.
   */
  lemma CardLayout(header: Array, body: string, footer: string)
    ensures |HeaderNodes(header)| == (if header == [] then 0 else 1)
    ensures |SectionNodes("mosaic-card-body", body)| == (if Truthy(Str(body)) then 1 else 0)
    ensures |SectionNodes("mosaic-card-footer", footer)| == (if Truthy(Str(footer)) then 1 else 0)
    ensures Truthy(Str(body)) ==> SectionNodes("mosaic-card-body", body)[0].kids == [Raw(body)]
    ensures Truthy(Str(footer)) ==> SectionNodes("mosaic-card-footer", footer)[0].kids == [Raw(footer)]
    ensures CardKids(header, body, footer)
         == HeaderNodes(header) + SectionNodes("mosaic-card-body", body) + SectionNodes("mosaic-card-footer", footer)
  {
  }

  /**
   * The card's classes open with mosaic-card; the variant class comes before the
   * active class and the custom class is last; mosaic-card-active is present
   * exactly when active is truthy (unless the variant is 'active' or the custom
   * class is mosaic-card-active).
   */
  lemma CardClassOrder(o: Array)
    ensures var c := CardClasses(o);
      && c[0] == "mosaic-card"
      && |c| == 1 + (if TruthyAt(o, "variant") then 1 else 0) + (if TruthyAt(o, "active") then 1 else 0)
                  + (if TruthyAt(o, "class") then 1 else 0)
      && (TruthyAt(o, "variant") ==> c[1] == "mosaic-card-" + GetStr(o, "variant"))
      && (TruthyAt(o, "active") ==> c[if TruthyAt(o, "variant") then 2 else 1] == "mosaic-card-active")
      && (TruthyAt(o, "class") ==> c[|c| - 1] == GetStr(o, "class"))
      && ((TruthyAt(o, "variant") ==> GetStr(o, "variant") != "active")
          && (TruthyAt(o, "class") ==> GetStr(o, "class") != "mosaic-card-active")
          ==> (TruthyAt(o, "active") <==> "mosaic-card-active" in CardClasses(o)))
  {
    OrderedClasses(["mosaic-card"], TruthyAt(o, "variant"), "mosaic-card-" + GetStr(o, "variant"),
                   TruthyAt(o, "active"), "mosaic-card-active", TruthyAt(o, "class"), GetStr(o, "class"));
    assert "mosaic-card-active" == "mosaic-card-" + "active";
    PrefixDistinct("mosaic-card-", GetStr(o, "variant"), "active");
    assert ["mosaic-card"][..1] == ["mosaic-card"];
  }

  /** A header set with set_header is always printed: its array is never empty. */
  lemma HeaderPrinted(title: string, actions: string, icon: string)
    ensures |HeaderNodes(HeaderOf(title, actions, icon))| == 1
    ensures HeaderNodes(HeaderOf(title, actions, icon))[0].kids[0].kids[|HeaderNodes(HeaderOf(title, actions, icon))[0].kids[0].kids| - 1]
         == Escaped(EscHtml, title)
  {
  }

  /** The computed class overrides any class in the caller's attrs; other caller attrs are kept. */
  lemma StatClassOverrides(o: Array)
    ensures Get(StatAttrs(o), "class") == Str(Implode(" ", StatClasses(o)))
  {
    ClassSurvives(GetArray(o, "attrs"), Implode(" ", StatClasses(o)),
      TruthyAt(o, "id"), Get(o, "id"), TruthyAt(o, "filter"), Get(o, "filter"));
  }

  /** A class merged over the attrs outlives the later id and data-filter assignments. */
  lemma ClassSurvives(attrs: Array, cls: string, hasId: bool, id: Value, hasFilter: bool, filter: Value)
    ensures var merged := Merge(attrs, [Entry("class", Str(cls))]);
      var withId := if hasId then Set(merged, "id", id) else merged;
      Get(if hasFilter then Set(withId, "data-filter", filter) else withId, "class") == Str(cls)
  {
    var one := [Entry("class", Str(cls))];
    var merged := Merge(attrs, one);
    MergeGet(attrs, one, "class");
    assert HasKey(one, "class") by {
      assert one[0].key == "class";
    }
    var withId := if hasId then Set(merged, "id", id) else merged;
    SetGet(merged, "id", id, "class");
    SetGet(withId, "data-filter", filter, "class");
  }

  /** data-filter is the filter option when it is set; otherwise only what the caller's attrs carry. */
  lemma StatDataFilter(o: Array)
    requires WellFormed(GetArray(o, "attrs"))
    ensures Get(StatAttrs(o), "data-filter")
         == if TruthyAt(o, "filter") then Get(o, "filter") else Get(GetArray(o, "attrs"), "data-filter")
  {
    var cls := [Entry("class", Str(Implode(" ", StatClasses(o))))];
    var merged := Merge(GetArray(o, "attrs"), cls);
    MergeGet(GetArray(o, "attrs"), cls, "data-filter");
    assert !HasKey(cls, "data-filter") by {
      assert cls[0].key != "data-filter";
    }
    var withId := if TruthyAt(o, "id") then Set(merged, "id", Get(o, "id")) else merged;
    SetGet(merged, "id", Get(o, "id"), "data-filter");
    SetGet(withId, "data-filter", Get(o, "filter"), "data-filter");
  }

  /**
   * A stat card's classes: the base class and its variant first, then the
   * clickable class before the active class, the custom class last; clickable
   * and active are each present exactly when truthy (unless the variant or the
   * custom class spells the same class).
   */
  lemma StatClassRules(o: Array)
    ensures StatClasses(o)[..2] == ["mosaic-stat-card", "mosaic-stat-card-" + GetStr(o, "variant")]
    ensures TruthyAt(o, "clickable") ==> "mosaic-stat-card-clickable" in StatClasses(o)[2..]
    ensures TruthyAt(o, "active") ==> "mosaic-stat-card-active" in StatClasses(o)[2..]
    ensures var c := StatClasses(o);
      && |c| == 2 + (if TruthyAt(o, "clickable") then 1 else 0) + (if TruthyAt(o, "active") then 1 else 0)
                  + (if TruthyAt(o, "class") then 1 else 0)
      && (TruthyAt(o, "clickable") ==> c[2] == "mosaic-stat-card-clickable")
      && (TruthyAt(o, "active") ==> c[if TruthyAt(o, "clickable") then 3 else 2] == "mosaic-stat-card-active")
      && (TruthyAt(o, "class") ==> c[|c| - 1] == GetStr(o, "class"))
    ensures GetStr(o, "variant") != "clickable" && (TruthyAt(o, "class") ==> GetStr(o, "class") != "mosaic-stat-card-clickable")
      ==> (TruthyAt(o, "clickable") <==> "mosaic-stat-card-clickable" in StatClasses(o))
    ensures GetStr(o, "variant") != "active" && (TruthyAt(o, "class") ==> GetStr(o, "class") != "mosaic-stat-card-active")
      ==> (TruthyAt(o, "active") <==> "mosaic-stat-card-active" in StatClasses(o))
  {
    var c := StatClasses(o);
    var f := ["mosaic-stat-card", "mosaic-stat-card-" + GetStr(o, "variant")];
    OrderedClasses(f, TruthyAt(o, "clickable"), "mosaic-stat-card-clickable", TruthyAt(o, "active"), "mosaic-stat-card-active",
                   TruthyAt(o, "class"), GetStr(o, "class"));
    if TruthyAt(o, "clickable") {
      assert c[2..][0] == c[2];
    }
    if TruthyAt(o, "active") {
      var k := if TruthyAt(o, "clickable") then 3 else 2;
      assert c[2..][k - 2] == c[k];
    }
    assert "mosaic-stat-card-clickable" == "mosaic-stat-card-" + "clickable";
    assert "mosaic-stat-card-active" == "mosaic-stat-card-" + "active";
    PrefixDistinct("mosaic-stat-card-", GetStr(o, "variant"), "clickable");
    PrefixDistinct("mosaic-stat-card-", GetStr(o, "variant"), "active");
  }

  /** The variant defaults to 'primary'. */
  lemma StatVariantDefault(options: Array)
    requires WellFormed(options) && !HasKey(options, "variant")
    ensures GetStr(ParseArgs(options, StatDefaults()), "variant") == "primary"
  {
    StatDefaultVariant();
    ParseArgsGet(options, StatDefaults(), "variant");
  }

  lemma StatDefaultVariant()
    ensures Get(StatDefaults(), "variant") == Str("primary")
  {
    var d := StatDefaults();
    assert d[0].key == "id" && d[1].key == "class" && d[2].key == "variant";
    assert Get(d, "variant") == Get(d[1..], "variant") == Get(d[2..], "variant");
  }

  /** The meta block is printed exactly when meta is set, after the value. */
  lemma StatMetaRule(labelValue: Value, value: Value, options: Array)
    ensures var o := ParseArgs(options, StatDefaults());
      var kids := StatNode(labelValue, value, options).kids;
      |kids| == (if TruthyAt(o, "meta") then 3 else 2)
      && kids[1] == StatValueNode(value)
      && (TruthyAt(o, "meta") ==> kids[2].kids == [Escaped(EscHtml, GetStr(o, "meta"))])
  {
  }

  /** healthy, warning and critical have their own icons; every other status shows 'info'. */
  lemma StatusIconRule(status: string)
    ensures status == "healthy" ==> StatusIcon(status) == "yes-alt"
    ensures status == "warning" ==> StatusIcon(status) == "warning"
    ensures status == "critical" ==> StatusIcon(status) == "dismiss"
    ensures status != "healthy" && status != "warning" && status != "critical" ==> StatusIcon(status) == "info"
  {
    var m := StatusIcons();
    assert m[0].key == "healthy" && m[1].key == "warning" && m[2].key == "critical";
    if status != "healthy" && status != "warning" && status != "critical" {
      assert !HasKey(m, status);
      GetAbsent(m, status);
    }
  }

  /** The unit span is printed exactly when the unit is set, after the value. */
  lemma MetricUnitRule(labelText: string, value: Value, unit: string, options: Array)
    ensures var valueKids := MetricNode(labelText, value, unit, options).kids[1].kids;
      |valueKids| == (if Truthy(Str(unit)) then 2 else 1)
      && valueKids[0] == Escaped(EscHtml, ToStr(value))
      && (Truthy(Str(unit)) ==> valueKids[1].kids == [Escaped(EscHtml, unit)])
  {
  }

  /** The grid holds one stat card per entry, in input order. */
  lemma StatsInOrder(stats: seq<Array>, i: nat)
    requires i < |stats|
    ensures |StatsGridNode(stats).kids| == |stats|
    ensures StatsGridNode(stats).kids[i] == StatCard(stats[i])
  {
  }

  lemma StatCardsSnoc(stats: seq<Array>, i: nat)
    requires i < |stats|
    ensures StatCards(stats[..i + 1]) == StatCards(stats[..i]) + [StatCard(stats[i])]
  {
    MapSnoc(StatCard, stats, i);
  }

  /** stats_grid: the grid tag, one stat card per entry, the closing tag. */
  method StatsGrid(wp: Wp, stats: seq<Array>) returns (html: string)
    ensures html == Serialize(wp, StatsGridNode(stats))
  {
    var cards := "";
    var i := 0;
    while i < |stats|
      invariant 0 <= i <= |stats|
      invariant cards == SerializeAll(wp, StatCards(stats[..i]))
    {
      var card := StatCard(stats[i]);
      StatCardsSnoc(stats, i);
      SerializeAllSnoc(wp, StatCards(stats[..i]), card);
      cards := cards + Serialize(wp, card);
      i := i + 1;
    }
    assert stats[..i] == stats;
    var gridAttrs := [AttrLit("class", "mosaic-stats-grid")];
    html := StartTag(wp, "div", gridAttrs) + cards + EndTag("div");
    SerializeTags(wp, "div", gridAttrs, StatCards(stats));
  }

  // ---------------------------------------------------------------------------
  // The card.
  // ---------------------------------------------------------------------------

  class Card {
    var options: Array
    var header: Array
    var body: string
    var footer: string

    constructor(opts: Array)
      ensures options == ParseArgs(opts, CardDefaults()) && header == [] && body == "" && footer == ""
    {
      options := ParseArgs(opts, CardDefaults());
      header := [];
      body := "";
      footer := "";
    }

    method SetHeader(title: string, actions: string, icon: string)
      modifies this
      ensures header == HeaderOf(title, actions, icon)
      ensures options == old(options) && body == old(body) && footer == old(footer)
    {
      header := HeaderOf(title, actions, icon);
    }

    method SetBody(content: string)
      modifies this
      ensures body == content && options == old(options) && header == old(header) && footer == old(footer)
    {
      body := content;
    }

    method SetFooter(content: string)
      modifies this
      ensures footer == content && options == old(options) && header == old(header) && body == old(body)
    {
      footer := content;
    }

    /** render: the card tag, header, body and footer, the closing tag. */
    method Render(wp: Wp) returns (html: string)
      ensures html == Serialize(wp, CardNode(options, header, body, footer))
    {
      var attrStr := BuildAttrs(wp, PlainStyle, ClassAndId(CardClasses(options), options));
      var head := SerializeAll(wp, HeaderNodes(header));
      var main := "";
      if Truthy(Str(body)) {
        main := Serialize(wp, Element("div", [AttrLit("class", "mosaic-card-body")], [Raw(body)]));
      }
      var foot := "";
      if Truthy(Str(footer)) {
        foot := Serialize(wp, Element("div", [AttrLit("class", "mosaic-card-footer")], [Raw(footer)]));
      }
      html := OpenTag("div", attrStr) + (head + main + foot) + EndTag("div");
      SectionText(wp, "mosaic-card-body", body);
      SectionText(wp, "mosaic-card-footer", footer);
      var hb := HeaderNodes(header) + SectionNodes("mosaic-card-body", body);
      SerializeAllAppend(wp, HeaderNodes(header), SectionNodes("mosaic-card-body", body));
      SerializeAllAppend(wp, hb, SectionNodes("mosaic-card-footer", footer));
      SerializeTags(wp, "div", AttrList(PlainStyle, ClassAndId(CardClasses(options), options)), CardKids(header, body, footer));
    }
  }

  lemma SectionText(wp: Wp, cls: string, content: string)
    ensures SerializeAll(wp, SectionNodes(cls, content))
         == if Truthy(Str(content)) then Serialize(wp, Element("div", [AttrLit("class", cls)], [Raw(content)])) else ""
  {
    if Truthy(Str(content)) {
      SerializeAllSingle(wp, Element("div", [AttrLit("class", cls)], [Raw(content)]));
    }
  }
}
