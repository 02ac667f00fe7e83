/**
 * The static helpers of the Mosaic class: the configuration lookup, and the
 * component printers (button, badge, health badge, progress bar, icon, alert,
 * page header) built on the generic tag printer.
 */
module Mosaic {
  import opened Strings
  import opened Php
  import opened Html

  // ---------------------------------------------------------------------------
  // Configuration.
  // ---------------------------------------------------------------------------

  /** The configuration used when no mosaic.properties file exists. */
  function ConfigDefaults(): Array {
    [Entry("name", Str("Mosaic")), Entry("main-css", Str("assets/css/mosaic.css")),
     Entry("main-js", Str("assets/js/mosaic.js")), Entry("css-path", Str("assets/css")),
     Entry("js-path", Str("assets/js")), Entry("php-path", Str("includes"))]
  }

  /** `config(key, default)` over the loaded configuration: a set value, otherwise the default. */
  function Config(config: Array, key: string, default: Value): (v: Value)
    ensures IsSet(config, key) ==> v == Get(config, key) && v != Null
    ensures !IsSet(config, key) ==> v == default
  {
    if IsSet(config, key) then Get(config, key) else default
  }

  /** A key the configuration sets wins over any default; a missing or null key gives the default back. */
  lemma ConfigLookup(config: Array, key: string, default: Value, i: nat)
    requires WellFormed(config) && i < |config| && config[i].key == key
    ensures config[i].val != Null ==> Config(config, key, default) == config[i].val
    ensures config[i].val == Null ==> Config(config, key, default) == default
  {
    GetFound(config, key, i);
  }

  /** Without a properties file css() and js() give the shipped paths. */
  lemma DefaultPaths()
    ensures Config(ConfigDefaults(), "main-css", Str("assets/css/mosaic.css")) == Str("assets/css/mosaic.css")
    ensures Config(ConfigDefaults(), "main-js", Str("assets/js/mosaic.js")) == Str("assets/js/mosaic.js")
  {
    var c := ConfigDefaults();
    assert c[1].key == "main-css" && c[2].key == "main-js";
  }

  // ---------------------------------------------------------------------------
  // The tag printer.
  // ---------------------------------------------------------------------------

  /**
   * `Mosaic::tag`: the start tag with the attributes (true as a bare key,
   * false and null left out, '' kept as key=""), the content as given, the end tag.
   */
  method Tag(wp: Wp, tag: string, attrs: Array, content: string) returns (html: string)
    ensures html == Serialize(wp, Element(tag, AttrList(TagStyle, attrs), [Raw(content)]))
  {
    var attrStr := BuildAttrs(wp, TagStyle, attrs);
    html := OpenTag(tag, attrStr) + content + EndTag(tag);
    TextNodes(wp, EscHtml, content);
    SerializeAllSingle(wp, Raw(content));
    SerializeTags(wp, tag, AttrList(TagStyle, attrs), [Raw(content)]);
  }

  /** Unlike build_attrs of the other builders, tag keeps an empty string as `key=""`. */
  lemma TagKeepsEmptyString(k: string)
    ensures TagAttr(Entry(k, Str(""))) == [KeyValue(Entry(k, Str("")))]
    ensures PlainAttr(Entry(k, Str(""))) == []
    ensures TagAttr(Entry(k, Bool(true))) == [Bare(Esc(EscAttr, k))]
    ensures TagAttr(Entry(k, Bool(false))) == [] && TagAttr(Entry(k, Null)) == []
  {
  }

  // ---------------------------------------------------------------------------
  // Button.
  // ---------------------------------------------------------------------------

  function ButtonDefaults(): Array {
    [Entry("type", Str("button")), Entry("variant", Str("secondary")), Entry("size", Str("")),
     Entry("icon", Str("")), Entry("icon_pos", Str("left")), Entry("class", Str("")), Entry("id", Str("")),
     Entry("disabled", Bool(false)), Entry("loading", Bool(false)), Entry("href", Str("")),
     Entry("target", Str("")), Entry("attrs", Arr([]))]
  }

  /** mosaic-btn, mosaic-btn-VARIANT, then the size, loading and custom classes when set. */
  function ButtonClasses(o: Array): seq<string> {
    ["mosaic-btn", "mosaic-btn-" + GetStr(o, "variant")]
    + (if TruthyAt(o, "size") then ["mosaic-btn-" + GetStr(o, "size")] else [])
    + (if TruthyAt(o, "loading") then ["mosaic-btn-loading"] else [])
    + (if TruthyAt(o, "class") then [GetStr(o, "class")] else [])
  }

  /** The attributes computed before the caller's 'attrs' are merged over them. */
  function ComputedAttrs(o: Array): Array {
    [Entry("class", Str(Implode(" ", ButtonClasses(o))))]
    + (if TruthyAt(o, "id") then [Entry("id", Get(o, "id"))] else [])
    + (if TruthyAt(o, "disabled") then [Entry("disabled", Str("disabled"))] else [])
  }

  /** The final attribute array: the caller's attrs over the computed ones, then href/target or type. */
  function ButtonAttrs(wp: Wp, o: Array): Array {
    var merged := Merge(ComputedAttrs(o), GetArray(o, "attrs"));
    if TruthyAt(o, "href") then
      var withHref := Set(merged, "href", Str(wp.escUrl(GetStr(o, "href"))));
      if TruthyAt(o, "target") then Set(withHref, "target", Get(o, "target")) else withHref
    else Set(merged, "type", Get(o, "type"))
  }

  /** The icon goes before the label only when icon_pos is exactly 'left'. */
  function ButtonContent(o: Array, labelText: string): seq<Node> {
    var icon := if TruthyAt(o, "icon") then [Dashicon(GetStr(o, "icon"))] else [];
    if Get(o, "icon_pos") == Str("left") then icon + [Escaped(EscHtml, labelText)]
    else [Escaped(EscHtml, labelText)] + icon
  }

  function ButtonNode(wp: Wp, labelText: string, opts: Array): Node {
    var o := ParseArgs(opts, ButtonDefaults());
    Element(if TruthyAt(o, "href") then "a" else "button", AttrList(TagStyle, ButtonAttrs(wp, o)), ButtonContent(o, labelText))
  }

  /** The content string button builds: the icon html and the escaped label, in icon_pos order. */
  method ButtonContentText(wp: Wp, o: Array, labelText: string) returns (content: string)
    ensures content == SerializeAll(wp, ButtonContent(o, labelText))
  {
    var iconHtml := "";
    if TruthyAt(o, "icon") {
      iconHtml := Serialize(wp, Dashicon(GetStr(o, "icon")));
    }
    var labelNode := Escaped(EscHtml, labelText);
    if Get(o, "icon_pos") == Str("left") {
      content := iconHtml + wp.escHtml(labelText);
    } else {
      content := wp.escHtml(labelText) + iconHtml;
    }
    SerializeAllSingle(wp, labelNode);
    TextNodes(wp, EscHtml, labelText);
    if TruthyAt(o, "icon") {
      SerializeAllSingle(wp, Dashicon(GetStr(o, "icon")));
      SerializeAllAppend(wp, [Dashicon(GetStr(o, "icon"))], [labelNode]);
      SerializeAllAppend(wp, [labelNode], [Dashicon(GetStr(o, "icon"))]);
    } else {
      assert [] + [labelNode] == [labelNode] && [labelNode] + [] == [labelNode];
    }
  }

  /** `Mosaic::button`: an `<a>` when href is set, otherwise a `<button type=…>`. */
  method Button(wp: Wp, labelText: string, opts: Array) returns (html: string)
    ensures html == Serialize(wp, ButtonNode(wp, labelText, opts))
  {
    var o := ParseArgs(opts, ButtonDefaults());
    var content := ButtonContentText(wp, o, labelText);
    var tag := if TruthyAt(o, "href") then "a" else "button";
    html := Tag(wp, tag, ButtonAttrs(wp, o), content);
    ButtonTagged(wp, tag, AttrList(TagStyle, ButtonAttrs(wp, o)), ButtonContent(o, labelText));
  }

  /** Printing the content first and wrapping it as raw text gives the same html as the element. */
  lemma ButtonTagged(wp: Wp, tag: string, ats: seq<Attr>, kids: seq<Node>)
    ensures Serialize(wp, Element(tag, ats, [Raw(SerializeAll(wp, kids))])) == Serialize(wp, Element(tag, ats, kids))
  {
    var content := SerializeAll(wp, kids);
    TextNodes(wp, EscHtml, content);
    SerializeAllSingle(wp, Raw(content));
    SerializeTags(wp, tag, ats, [Raw(content)]);
    SerializeTags(wp, tag, ats, kids);
  }

  lemma ButtonDefaultsWellFormed()
    ensures WellFormed(ButtonDefaults())
  {
  }

  /**
   * The class list opens with mosaic-btn and mosaic-btn-VARIANT; the size class
   * comes before the loading class and the custom class is last; the loading
   * class is present exactly when loading is truthy (unless the variant or the
   * size is itself 'loading', or the custom class is mosaic-btn-loading).
   */
  lemma ButtonClassOrder(o: Array)
    ensures var c := ButtonClasses(o);
      && c[..2] == ["mosaic-btn", "mosaic-btn-" + GetStr(o, "variant")]
      && |c| == 2 + (if TruthyAt(o, "size") then 1 else 0) + (if TruthyAt(o, "loading") then 1 else 0)
                  + (if TruthyAt(o, "class") then 1 else 0)
      && (TruthyAt(o, "size") ==> c[2] == "mosaic-btn-" + GetStr(o, "size"))
      && (TruthyAt(o, "loading") ==> c[if TruthyAt(o, "size") then 3 else 2] == "mosaic-btn-loading")
      && (TruthyAt(o, "class") ==> c[|c| - 1] == GetStr(o, "class"))
      && (GetStr(o, "variant") != "loading" && (TruthyAt(o, "size") ==> GetStr(o, "size") != "loading")
          && (TruthyAt(o, "class") ==> GetStr(o, "class") != "mosaic-btn-loading")
          ==> (TruthyAt(o, "loading") <==> "mosaic-btn-loading" in c))
  {
    var variant, size := GetStr(o, "variant"), GetStr(o, "size");
    var f := ["mosaic-btn", "mosaic-btn-" + variant];
    OrderedClasses(f, TruthyAt(o, "size"), "mosaic-btn-" + size, TruthyAt(o, "loading"), "mosaic-btn-loading",
                   TruthyAt(o, "class"), GetStr(o, "class"));
    assert "mosaic-btn-loading" == "mosaic-btn-" + "loading";
    PrefixDistinct("mosaic-btn-", variant, "loading");
    PrefixDistinct("mosaic-btn-", size, "loading");
    assert "mosaic-btn-loading" != "mosaic-btn";
  }

  /** A button is a link exactly when href is set; only a link carries the target option. */
  lemma ButtonLinkIffHref(wp: Wp, labelText: string, opts: Array)
    requires WellFormed(opts)
    ensures var o := ParseArgs(opts, ButtonDefaults());
            (ButtonNode(wp, labelText, opts).tag == "a" <==> TruthyAt(o, "href"))
            && (TruthyAt(o, "href") ==> Get(ButtonAttrs(wp, o), "href") == Str(wp.escUrl(GetStr(o, "href"))))
            && (TruthyAt(o, "href") && TruthyAt(o, "target") ==> Get(ButtonAttrs(wp, o), "target") == Get(o, "target"))
            && (!TruthyAt(o, "href") ==> Get(ButtonAttrs(wp, o), "type") == Get(o, "type"))
            && (!TruthyAt(o, "href") ==> Get(ButtonAttrs(wp, o), "target") == Get(Merge(ComputedAttrs(o), GetArray(o, "attrs")), "target"))
  {
    var o := ParseArgs(opts, ButtonDefaults());
    var merged := Merge(ComputedAttrs(o), GetArray(o, "attrs"));
    if TruthyAt(o, "href") {
      var withHref := Set(merged, "href", Str(wp.escUrl(GetStr(o, "href"))));
      SetGet(merged, "href", Str(wp.escUrl(GetStr(o, "href"))), "href");
      if TruthyAt(o, "target") {
        SetGet(withHref, "target", Get(o, "target"), "href");
        SetGet(withHref, "target", Get(o, "target"), "target");
      }
    } else {
      SetGet(merged, "type", Get(o, "type"), "type");
      SetGet(merged, "type", Get(o, "type"), "target");
    }
  }

  /** Caller 'attrs' override the computed class, id and disabled attributes. */
  lemma CallerAttrsOverride(wp: Wp, o: Array, k: string)
    requires WellFormed(GetArray(o, "attrs"))
    requires k != "href" && k != "target" && k != "type"
    requires HasKey(GetArray(o, "attrs"), k)
    ensures Get(ButtonAttrs(wp, o), k) == Get(GetArray(o, "attrs"), k)
  {
    var merged := Merge(ComputedAttrs(o), GetArray(o, "attrs"));
    MergeGet(ComputedAttrs(o), GetArray(o, "attrs"), k);
    if TruthyAt(o, "href") {
      var withHref := Set(merged, "href", Str(wp.escUrl(GetStr(o, "href"))));
      SetGet(merged, "href", Str(wp.escUrl(GetStr(o, "href"))), k);
      if TruthyAt(o, "target") {
        SetGet(withHref, "target", Get(o, "target"), k);
      }
    } else {
      SetGet(merged, "type", Get(o, "type"), k);
    }
  }

  /** With an icon, it comes before the label iff icon_pos is 'left', and after it otherwise. */
  lemma ButtonIconPosition(o: Array, labelText: string)
    requires TruthyAt(o, "icon")
    ensures Get(o, "icon_pos") == Str("left") ==>
      ButtonContent(o, labelText) == [Dashicon(GetStr(o, "icon")), Escaped(EscHtml, labelText)]
    ensures Get(o, "icon_pos") != Str("left") ==>
      ButtonContent(o, labelText) == [Escaped(EscHtml, labelText), Dashicon(GetStr(o, "icon"))]
  {
  }

  // ---------------------------------------------------------------------------
  // Badges.
  // ---------------------------------------------------------------------------

  function BadgeDefaults(): Array {
    [Entry("icon", Str("")), Entry("solid", Bool(false)), Entry("class", Str(""))]
  }

  function BadgeClasses(variant: string, o: Array): seq<string> {
    ["mosaic-badge", "mosaic-badge-" + variant]
    + (if TruthyAt(o, "solid") then ["mosaic-badge-solid"] else [])
    + (if TruthyAt(o, "class") then [GetStr(o, "class")] else [])
  }

  /** `Mosaic::badge`: a span with the optional icon and then the escaped label. */
  function Badge(labelText: string, variant: string, opts: Array): (n: Node)
    ensures n.Element? && n.tag == "span"
    ensures |n.kids| == (if TruthyAt(ParseArgs(opts, BadgeDefaults()), "icon") then 2 else 1)
    ensures n.kids[|n.kids| - 1] == Escaped(EscHtml, labelText)
    ensures TruthyAt(ParseArgs(opts, BadgeDefaults()), "icon") ==> n.kids[0] == Dashicon(GetStr(ParseArgs(opts, BadgeDefaults()), "icon"))
  {
    var o := ParseArgs(opts, BadgeDefaults());
    Element("span", [ClassAttr(BadgeClasses(variant, o))],
      (if TruthyAt(o, "icon") then [Dashicon(GetStr(o, "icon"))] else []) + [Escaped(EscHtml, labelText)])
  }

  /**
   * The badge's span has one class attribute; its classes open with
   * mosaic-badge and mosaic-badge-VARIANT, the solid class comes next and the
   * custom class last; mosaic-badge-solid is present exactly when solid is
   * truthy (unless the variant is 'solid' or the custom class is that class).
   */
  lemma BadgeClassRules(labelText: string, variant: string, opts: Array)
    ensures var o := ParseArgs(opts, BadgeDefaults());
      var c := BadgeClasses(variant, o);
      && Badge(labelText, variant, opts).attrs == [ClassAttr(c)]
      && c[..2] == ["mosaic-badge", "mosaic-badge-" + variant]
      && |c| == 2 + (if TruthyAt(o, "solid") then 1 else 0) + (if TruthyAt(o, "class") then 1 else 0)
      && (TruthyAt(o, "solid") ==> c[2] == "mosaic-badge-solid")
      && (TruthyAt(o, "class") ==> c[|c| - 1] == GetStr(o, "class"))
      && (variant != "solid" && (TruthyAt(o, "class") ==> GetStr(o, "class") != "mosaic-badge-solid")
          ==> (TruthyAt(o, "solid") <==> "mosaic-badge-solid" in c))
  {
    var o := ParseArgs(opts, BadgeDefaults());
    OrderedClasses(["mosaic-badge", "mosaic-badge-" + variant], false, "", TruthyAt(o, "solid"), "mosaic-badge-solid",
                   TruthyAt(o, "class"), GetStr(o, "class"));
    assert "mosaic-badge-solid" == "mosaic-badge-" + "solid";
    PrefixDistinct("mosaic-badge-", variant, "solid");
  }

  function HealthIcons(): Array {
    [Entry("healthy", Str("yes-alt")), Entry("warning", Str("warning")), Entry("critical", Str("dismiss")), Entry("unknown", Str("minus"))]
  }

  function HealthLabels(): Array {
    [Entry("healthy", Str("Healthy")), Entry("warning", Str("Warning")), Entry("critical", Str("Critical")), Entry("unknown", Str("Unknown"))]
  }

  /** The icon of a health status; an unknown status falls back to 'minus'. */
  function HealthIcon(status: string): string {
    if IsSet(HealthIcons(), status) then GetStr(HealthIcons(), status) else "minus"
  }

  /** The label: the caller's when truthy, else the status's own, else ucfirst(status). */
  function HealthLabel(status: string, labelText: string): string {
    if Truthy(Str(labelText)) then labelText
    else if IsSet(HealthLabels(), status) then GetStr(HealthLabels(), status)
    else UcFirst(status)
  }

  function HealthBadge(status: string, labelText: string): Node {
    Element("span", [Pair(Lit("class"), [Lit("mosaic-health-badge mosaic-health-badge-"), Esc(EscAttr, status)])],
      [Dashicon(HealthIcon(status)), Raw(" "), Escaped(EscHtml, HealthLabel(status, labelText))])
  }

  predicate KnownHealth(status: string) {
    status == "healthy" || status == "warning" || status == "critical" || status == "unknown"
  }

  /** The icon and label of a health badge, and their fallbacks for statuses outside the map. */
  lemma HealthBadgeResolution(status: string, labelText: string)
    ensures !KnownHealth(status) ==> HealthIcon(status) == "minus"
    ensures status == "healthy" ==> HealthIcon(status) == "yes-alt" && (labelText == "" ==> HealthLabel(status, labelText) == "Healthy")
    ensures status == "critical" ==> HealthIcon(status) == "dismiss"
    ensures Truthy(Str(labelText)) ==> HealthLabel(status, labelText) == labelText
    ensures !Truthy(Str(labelText)) && !KnownHealth(status) ==> HealthLabel(status, labelText) == UcFirst(status)
  {
    var icons := HealthIcons();
    var labels := HealthLabels();
    if !KnownHealth(status) {
      assert !HasKey(icons, status) && !HasKey(labels, status);
      GetAbsent(icons, status);
      GetAbsent(labels, status);
    }
    if status == "healthy" {
      assert icons[0].key == status && labels[0].key == status;
    }
    if status == "critical" {
      assert icons[2].key == status;
    }
  }

  // ---------------------------------------------------------------------------
  // Progress bar.
  // ---------------------------------------------------------------------------

  function ProgressDefaults(): Array {
    [Entry("variant", Str("")), Entry("size", Str("")), Entry("striped", Bool(false)), Entry("animated", Bool(false)),
     Entry("label", Str("")), Entry("show_value", Bool(false)), Entry("class", Str(""))]
  }

  /** `max(0, min(100, value))`. */
  function Clamp(value: int): (v: int)
    ensures 0 <= v <= 100
    ensures 0 <= value <= 100 ==> v == value
    ensures value < 0 ==> v == 0
    ensures value > 100 ==> v == 100
  {
    if value < 0 then 0 else if value > 100 then 100 else value
  }

  function ProgressClasses(o: Array): seq<string> {
    ["mosaic-progress"]
    + (if TruthyAt(o, "variant") then ["mosaic-progress-" + GetStr(o, "variant")] else [])
    + (if TruthyAt(o, "size") then ["mosaic-progress-" + GetStr(o, "size")] else [])
    + (if TruthyAt(o, "striped") then ["mosaic-progress-striped"] else [])
    + (if TruthyAt(o, "animated") then ["mosaic-progress-animated"] else [])
    + (if TruthyAt(o, "class") then [GetStr(o, "class")] else [])
  }

  /** The bar: its width is the clamped value as a percentage. */
  function ProgressBar(o: Array, v: int): Node {
    Element("div", [ClassAttr(ProgressClasses(o))],
      [Element("div", [AttrLit("class", "mosaic-progress-bar"), AttrLit("style", "width: " + IntToString(v) + "%;")], [])])
  }

  function ProgressHeader(o: Array, v: int): Node {
    Element("div", [AttrLit("class", "mosaic-progress-header")],
      (if TruthyAt(o, "label") then [Element("span", [AttrLit("class", "mosaic-progress-title")], [Escaped(EscHtml, GetStr(o, "label"))])] else [])
      + (if TruthyAt(o, "show_value") then [Element("span", [AttrLit("class", "mosaic-progress-value")], [Raw(IntToString(v) + "%")])] else []))
  }

  /** `Mosaic::progress(value, options)`; value is the result of intval. */
  function Progress(value: int, opts: Array): seq<Node> {
    var o := ParseArgs(opts, ProgressDefaults());
    var v := Clamp(value);
    if TruthyAt(o, "label") || TruthyAt(o, "show_value") then
      [Element("div", [AttrLit("class", "mosaic-progress-wrapper")], [ProgressHeader(o, v), ProgressBar(o, v)])]
    else [ProgressBar(o, v)]
  }

  /**
   * The bar width is always within 0..100 and equals the value when the value is
   * in range; the header wrapper appears exactly when label or show_value is set.
   */
  lemma ProgressShape(value: int, opts: Array)
    ensures var o := ParseArgs(opts, ProgressDefaults());
            var v := Clamp(value);
            |Progress(value, opts)| == 1
            && (Progress(value, opts)[0] == ProgressBar(o, v) <==> !(TruthyAt(o, "label") || TruthyAt(o, "show_value")))
            && (TruthyAt(o, "label") || TruthyAt(o, "show_value") ==> Progress(value, opts)[0].kids == [ProgressHeader(o, v), ProgressBar(o, v)])
  {
    var o := ParseArgs(opts, ProgressDefaults());
    var v := Clamp(value);
    if TruthyAt(o, "label") || TruthyAt(o, "show_value") {
      assert Progress(value, opts)[0].tag == "div" && Progress(value, opts)[0].attrs != ProgressBar(o, v).attrs by {
        assert "mosaic-progress-wrapper" != ClassText(ProgressClasses(o)) || Lit("mosaic-progress-wrapper") != Esc(EscAttr, ClassText(ProgressClasses(o)));
      }
    }
  }

  // ---------------------------------------------------------------------------
  // Icon, alert and page header.
  // ---------------------------------------------------------------------------

  function IconDefaults(): Array {
    [Entry("size", Str("")), Entry("color", Str("")), Entry("class", Str(""))]
  }

  function IconClasses(name: string, o: Array): seq<string> {
    ["dashicons", "dashicons-" + name, "mosaic-icon"]
    + (if TruthyAt(o, "size") then ["mosaic-icon-" + GetStr(o, "size")] else [])
    + (if TruthyAt(o, "color") then ["mosaic-icon-" + GetStr(o, "color")] else [])
    + (if TruthyAt(o, "class") then [GetStr(o, "class")] else [])
  }

  /** `Mosaic::icon`: an empty span whose classes start with dashicons, dashicons-NAME, mosaic-icon. */
  function Icon(name: string, opts: Array): (n: Node)
    ensures n == Element("span", [ClassAttr(IconClasses(name, ParseArgs(opts, IconDefaults())))], [])
    ensures IconClasses(name, ParseArgs(opts, IconDefaults()))[..3] == ["dashicons", "dashicons-" + name, "mosaic-icon"]
  {
    Element("span", [ClassAttr(IconClasses(name, ParseArgs(opts, IconDefaults())))], [])
  }

  /**
   * The icon is an empty span with one class attribute; its classes open with
   * dashicons, dashicons-NAME and mosaic-icon, then mosaic-icon-SIZE and
   * mosaic-icon-COLOR appear exactly when size and color are truthy (when they
   * clash with no other class), and the custom class is last when truthy.
   */
  lemma IconClassRules(name: string, opts: Array)
    ensures var o := ParseArgs(opts, IconDefaults());
      var c := IconClasses(name, o);
      var sz, col := "mosaic-icon-" + GetStr(o, "size"), "mosaic-icon-" + GetStr(o, "color");
      && Icon(name, opts).tag == "span" && Icon(name, opts).kids == []
      && Icon(name, opts).attrs == [ClassAttr(c)]
      && c[..3] == ["dashicons", "dashicons-" + name, "mosaic-icon"]
      && |c| == 3 + (if TruthyAt(o, "size") then 1 else 0) + (if TruthyAt(o, "color") then 1 else 0)
                  + (if TruthyAt(o, "class") then 1 else 0)
      && (TruthyAt(o, "size") ==> c[3] == sz)
      && (TruthyAt(o, "color") ==> c[if TruthyAt(o, "size") then 4 else 3] == col)
      && (TruthyAt(o, "class") ==> c[|c| - 1] == GetStr(o, "class"))
      && ((TruthyAt(o, "color") ==> col != sz) && (TruthyAt(o, "class") ==> GetStr(o, "class") != sz)
          ==> (TruthyAt(o, "size") <==> sz in c))
      && ((TruthyAt(o, "size") ==> sz != col) && (TruthyAt(o, "class") ==> GetStr(o, "class") != col)
          ==> (TruthyAt(o, "color") <==> col in c))
  {
    var o := ParseArgs(opts, IconDefaults());
    var sz, col := "mosaic-icon-" + GetStr(o, "size"), "mosaic-icon-" + GetStr(o, "color");
    var f := ["dashicons", "dashicons-" + name, "mosaic-icon"];
    OrderedClasses(f, TruthyAt(o, "size"), sz, TruthyAt(o, "color"), col, TruthyAt(o, "class"), GetStr(o, "class"));
    IconPrefixNotFixed(name, GetStr(o, "size"));
    IconPrefixNotFixed(name, GetStr(o, "color"));
  }

  /** mosaic-icon-X is none of the three fixed icon classes. */
  lemma IconPrefixNotFixed(name: string, x: string)
    ensures "mosaic-icon-" + x !in ["dashicons", "dashicons-" + name, "mosaic-icon"]
  {
    var s := "mosaic-icon-" + x;
    assert s[0] == 'm' && s[11] == '-' && |s| >= 12;
    assert ("dashicons-" + name)[0] == 'd';
  }

  function AlertDefaults(): Array {
    [Entry("dismissible", Bool(false)), Entry("icon", Bool(true)), Entry("class", Str(""))]
  }

  function AlertIcons(): Array {
    [Entry("info", Str("info")), Entry("success", Str("yes-alt")), Entry("warning", Str("warning")), Entry("error", Str("dismiss"))]
  }

  /** `Mosaic::alert`: an info card with the type's icon (when icons are on and the type is known) and the filtered message. */
  function Alert(message: string, alertType: string, opts: Array): Node {
    var o := ParseArgs(opts, AlertDefaults());
    Element("div", [ClassAttr(["mosaic-info-card"] + (if TruthyAt(o, "class") then [GetStr(o, "class")] else []))],
      (if TruthyAt(o, "icon") && IsSet(AlertIcons(), alertType) then [Dashicon(GetStr(AlertIcons(), alertType))] else [])
      + [Element("div", [AttrLit("class", "mosaic-info-card-content")], [Text([Esc(KsesPost, message)])])])
  }

  /** The alert icon appears exactly when the icon option is truthy and the type is one of the four known types. */
  lemma AlertIconIffKnownType(message: string, alertType: string, opts: Array)
    ensures |Alert(message, alertType, opts).kids| == 2 <==>
      TruthyAt(ParseArgs(opts, AlertDefaults()), "icon")
      && (alertType == "info" || alertType == "success" || alertType == "warning" || alertType == "error")
  {
    var m := AlertIcons();
    if alertType == "info" || alertType == "success" || alertType == "warning" || alertType == "error" {
      assert m[0].key == "info" && m[1].key == "success" && m[2].key == "warning" && m[3].key == "error";
    } else {
      assert !HasKey(m, alertType);
      GetAbsent(m, alertType);
    }
  }

  function PageDefaults(): Array {
    [Entry("class", Str("")), Entry("actions", Str(""))]
  }

  /** The header block page_start prints when a title is given. */
  function PageHeader(title: string, o: Array): seq<Node> {
    [Element("div", [AttrLit("class", "mosaic-page-header")],
      [Element("div", [AttrLit("class", "mosaic-page-header-title")],
        [Element("h1", [AttrLit("class", "wp-heading-inline mosaic-heading-1")], [Escaped(EscHtml, title)])])]
      + (if TruthyAt(o, "actions") then [Element("div", [AttrLit("class", "mosaic-page-header-actions")], [Raw(GetStr(o, "actions"))])] else [])),
     Void("hr", [AttrLit("class", "wp-header-end")])]
  }

  /**
   * `Mosaic::page_start`: opens the wrap div (closed later by page_end) and,
   * only when the title is truthy, prints the header and the separator.
   */
  function PageStart(title: string, opts: Array): (r: (string, seq<Node>))
    ensures r.0 == "<div class=\"wrap mosaic-wrap\">"
    ensures r.1 == [] <==> !Truthy(Str(title))
  {
    var o := ParseArgs(opts, PageDefaults());
    ("<div class=\"wrap mosaic-wrap\">", if Truthy(Str(title)) then PageHeader(title, o) else [])
  }

  /** The page header shows the actions block exactly when the actions option is truthy. */
  lemma PageActionsIffSet(title: string, o: Array)
    ensures |PageHeader(title, o)[0].kids| == (if TruthyAt(o, "actions") then 2 else 1)
  {
  }
}
