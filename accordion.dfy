/**
 * The PHP accordion builder (Mosaic_Accordion): items are appended in order and
 * render prints one collapsible block per item inside the accordion container.
 */
module AccordionBuilder {
  import opened Strings
  import opened Php
  import opened Html

  function AccordionDefaults(): Array {
    [Entry("id", Str("")), Entry("class", Str("")), Entry("multiple", Bool(false)), Entry("flush", Bool(false))]
  }

  function ItemDefaults(title: string, content: string): Array {
    [Entry("title", Str(title)), Entry("content", Str(content)), Entry("icon", Str("")), Entry("open", Bool(false))]
  }

  function AccordionClasses(o: Array): seq<string> {
    ["mosaic-accordion"]
    + (if TruthyAt(o, "flush") then ["mosaic-accordion-flush"] else [])
    + (if TruthyAt(o, "class") then [GetStr(o, "class")] else [])
  }

  /** The container's attribute array: class, then id and data-multiple when set. */
  function AccordionAttrs(o: Array): Array {
    [Entry("class", Str(Implode(" ", AccordionClasses(o))))]
    + (if TruthyAt(o, "id") then [Entry("id", Get(o, "id"))] else [])
    + (if TruthyAt(o, "multiple") then [Entry("data-multiple", Str("true"))] else [])
  }

  function ItemClasses(item: Array): seq<string> {
    ["mosaic-accordion-item"] + (if TruthyAt(item, "open") then ["mosaic-accordion-item-open"] else [])
  }

  /** The title line: the icon when set, then the escaped title. */
  function TitleKids(item: Array): seq<Node> {
    (if TruthyAt(item, "icon") then [Dashicon(GetStr(item, "icon"))] else []) + [Escaped(EscHtml, GetStr(item, "title"))]
  }

  const toggleIcon := Element("span", [AttrLit("class", "mosaic-accordion-icon")],
    [Element("span", [AttrLit("class", "dashicons dashicons-arrow-down-alt2")], [])])

  function ItemHeader(item: Array): Node {
    Element("div", [AttrLit("class", "mosaic-accordion-header")],
      [Element("h3", [AttrLit("class", "mosaic-accordion-title")], TitleKids(item)), toggleIcon])
  }

  /** The content is printed as given. */
  function ItemContent(item: Array): Node {
    Element("div", [AttrLit("class", "mosaic-accordion-content")],
      [Element("div", [AttrLit("class", "mosaic-accordion-body")], [Raw(GetStr(item, "content"))])])
  }

  /** One item block; its class list is printed without escaping. */
  function ItemNode(item: Array): Node {
    Element("div", [AttrLit("class", ClassText(ItemClasses(item)))], [ItemHeader(item), ItemContent(item)])
  }

  function ItemNodes(items: seq<Array>): (r: seq<Node>)
    ensures |r| == |items|
  {
    seq(|items|, i requires 0 <= i < |items| => ItemNode(items[i]))
  }

  lemma ItemNodesSnoc(items: seq<Array>, i: nat)
    requires i < |items|
    ensures ItemNodes(items[..i + 1]) == ItemNodes(items[..i]) + [ItemNode(items[i])]
  {
  }

  function AccordionWith(attrs: Array, items: seq<Array>): Node {
    Element("div", AttrList(PlainStyle, attrs), ItemNodes(items))
  }

  /** What render returns: '' without items, otherwise the container with every item. */
  function AccordionText(wp: Wp, options: Array, items: seq<Array>): string {
    if items == [] then "" else Serialize(wp, AccordionWith(AccordionAttrs(options), items))
  }

  // ---------------------------------------------------------------------------
  // Properties.
  // ---------------------------------------------------------------------------

  /**
   * The container holds one block per item, in insertion order, each printing
   * its content as it is.
   */
  lemma ItemsInOrder(attrs: Array, items: seq<Array>, i: nat)
    requires i < |items|
    ensures |AccordionWith(attrs, items).kids| == |items|
    ensures AccordionWith(attrs, items).kids[i] == ItemNode(items[i])
    ensures AccordionWith(attrs, items).kids[i].kids[1].kids[0].kids == [Raw(GetStr(items[i], "content"))]
  {
    assert AccordionWith(attrs, items).kids == ItemNodes(items);
  }

  /** An item carries the open class exactly when its 'open' option is truthy. */
  lemma OpenClassIff(item: Array)
    ensures ("mosaic-accordion-item-open" in ItemClasses(item)) <==> TruthyAt(item, "open")
  {
    assert "mosaic-accordion-item-open" != "mosaic-accordion-item" by {
      assert |"mosaic-accordion-item-open"| != |"mosaic-accordion-item"|;
    }
  }

  /**
   * data-multiple is printed, as 'true', exactly when multiple is set; the flush
   * class is present exactly when flush is set (the custom class aside).
   */
  lemma ContainerFlags(o: Array)
    requires GetStr(o, "class") != "mosaic-accordion-flush"
    ensures HasKey(AccordionAttrs(o), "data-multiple") <==> TruthyAt(o, "multiple")
    ensures TruthyAt(o, "multiple") ==> Get(AccordionAttrs(o), "data-multiple") == Str("true")
    ensures ("mosaic-accordion-flush" in AccordionClasses(o)) <==> TruthyAt(o, "flush")
  {
    var a := AccordionAttrs(o);
    if TruthyAt(o, "multiple") {
      assert a[|a| - 1].key == "data-multiple";
      GetFound(a, "data-multiple", |a| - 1);
    }
    assert "mosaic-accordion-flush" != "mosaic-accordion" by {
      assert |"mosaic-accordion-flush"| != |"mosaic-accordion"|;
    }
  }

  /** Caller options override the title and content passed to add_item. */
  lemma ItemOptionsOverride(title: string, content: string, opts: Array)
    requires WellFormed(opts)
    ensures GetStr(ParseArgs(opts, ItemDefaults(title, content)), "title") == if HasKey(opts, "title") then GetStr(opts, "title") else title
  {
    ParseArgsGet(opts, ItemDefaults(title, content), "title");
  }

  // ---------------------------------------------------------------------------
  // The builder.
  // ---------------------------------------------------------------------------

  class Accordion {
    var options: Array
    var items: seq<Array>

    constructor(opts: Array)
      ensures options == ParseArgs(opts, AccordionDefaults()) && items == []
    {
      options := ParseArgs(opts, AccordionDefaults());
      items := [];
    }

    /** Appends the item with its options after defaults. */
    method AddItem(title: string, content: string, opts: Array)
      modifies this
      ensures items == old(items) + [ParseArgs(opts, ItemDefaults(title, content))]
      ensures options == old(options)
    {
      items := items + [ParseArgs(opts, ItemDefaults(title, content))];
    }

    /** One item block: the header, then the content. */
    method RenderItem(wp: Wp, item: Array) returns (html: string)
      ensures html == Serialize(wp, ItemNode(item))
    {
      var header := RenderHeader(wp, item);
      var content := RenderContent(wp, item);
      var ats := [AttrLit("class", ClassText(ItemClasses(item)))];
      html := StartTag(wp, "div", ats) + (header + content) + EndTag("div");
      PairText(wp, ItemHeader(item), ItemContent(item));
      SerializeTags(wp, "div", ats, [ItemHeader(item), ItemContent(item)]);
    }

    /** The header: the title line (icon, then escaped title) and the toggle icon. */
    method RenderHeader(wp: Wp, item: Array) returns (header: string)
      ensures header == Serialize(wp, ItemHeader(item))
    {
      var icon := "";
      if TruthyAt(item, "icon") {
        icon := Serialize(wp, Dashicon(GetStr(item, "icon")));
      }
      var titleAttrs := [AttrLit("class", "mosaic-accordion-title")];
      var title := StartTag(wp, "h3", titleAttrs) + (icon + wp.escHtml(GetStr(item, "title"))) + EndTag("h3");
      header := StartTag(wp, "div", [AttrLit("class", "mosaic-accordion-header")]) + (title + Serialize(wp, toggleIcon)) + EndTag("div");
      TitleText(wp, item);
      SerializeTags(wp, "h3", titleAttrs, TitleKids(item));
      var h3 := Element("h3", titleAttrs, TitleKids(item));
      PairText(wp, h3, toggleIcon);
      SerializeTags(wp, "div", [AttrLit("class", "mosaic-accordion-header")], [h3, toggleIcon]);
    }

    /** The content, printed as given inside the body and content wrappers. */
    method RenderContent(wp: Wp, item: Array) returns (content: string)
      ensures content == Serialize(wp, ItemContent(item))
    {
      var text := GetStr(item, "content");
      var body := StartTag(wp, "div", [AttrLit("class", "mosaic-accordion-body")]) + text + EndTag("div");
      content := StartTag(wp, "div", [AttrLit("class", "mosaic-accordion-content")]) + body + EndTag("div");
      TextNodes(wp, EscHtml, text);
      SerializeWrap(wp, "div", [AttrLit("class", "mosaic-accordion-body")], Raw(text));
      SerializeWrap(wp, "div", [AttrLit("class", "mosaic-accordion-content")],
        Element("div", [AttrLit("class", "mosaic-accordion-body")], [Raw(text)]));
    }

    /** The items loop. */
    method RenderItems(wp: Wp) returns (html: string)
      ensures html == SerializeAll(wp, ItemNodes(items))
    {
      html := "";
      var i := 0;
      while i < |items|
        invariant 0 <= i <= |items|
        invariant html == SerializeAll(wp, ItemNodes(items[..i]))
      {
        ItemNodesSnoc(items, i);
        SerializeAllSnoc(wp, ItemNodes(items[..i]), ItemNode(items[i]));
        var block := RenderItem(wp, items[i]);
        html := html + block;
        i := i + 1;
      }
      assert items[..i] == items;
    }

    method RenderWith(wp: Wp, attrs: Array) returns (html: string)
      ensures html == Serialize(wp, AccordionWith(attrs, items))
    {
      var attrStr := BuildAttrs(wp, PlainStyle, attrs);
      var blocks := RenderItems(wp);
      html := OpenTag("div", attrStr) + blocks + EndTag("div");
      SerializeTags(wp, "div", AttrList(PlainStyle, attrs), ItemNodes(items));
    }

    /** `render`: '' without items, otherwise the container with one block per item. */
    method Render(wp: Wp) returns (html: string)
      ensures html == AccordionText(wp, options, items)
    {
      if items == [] {
        return "";
      }
      html := RenderWith(wp, AccordionAttrs(options));
    }
  }

  /** The title line prints the icon before the escaped title exactly when the icon is set. */
  lemma TitleText(wp: Wp, item: Array)
    ensures SerializeAll(wp, TitleKids(item))
         == (if TruthyAt(item, "icon") then Serialize(wp, Dashicon(GetStr(item, "icon"))) else "") + wp.escHtml(GetStr(item, "title"))
  {
    var t := Escaped(EscHtml, GetStr(item, "title"));
    TextNodes(wp, EscHtml, GetStr(item, "title"));
    if TruthyAt(item, "icon") {
      SerializeAllSingle(wp, Dashicon(GetStr(item, "icon")));
      SerializeAllSnoc(wp, [Dashicon(GetStr(item, "icon"))], t);
    } else {
      SerializeAllSingle(wp, t);
      assert TitleKids(item) == [t];
    }
  }

  /** Two siblings print one after the other. */
  lemma PairText(wp: Wp, a: Node, b: Node)
    ensures SerializeAll(wp, [a, b]) == Serialize(wp, a) + Serialize(wp, b)
  {
    SerializeAllSingle(wp, a);
    SerializeAllSnoc(wp, [a], b);
    assert [a] + [b] == [a, b];
  }
}
