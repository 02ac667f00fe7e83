/**
 * The PHP form builder (Mosaic_Form): fields are appended in call order with
 * their options after defaults, and render prints the form, the nonce field
 * and one block per field. Its build_attrs is the form writer of Html
 * (true prints a bare key; false, null and '' are left out).
 */
module FormBuilder {
  import opened Strings
  import opened Php
  import opened Html

  function FormDefaults(): Array {
    [Entry("id", Str("")), Entry("class", Str("")), Entry("action", Str("")), Entry("method", Str("post")),
     Entry("enctype", Str("")), Entry("wide", Bool(false)), Entry("nonce", Str("")), Entry("nonce_action", Str(""))]
  }

  function FieldDefaults(kind: string, name: string, labelText: string): Array {
    [Entry("type", Str(kind)), Entry("name", Str(name)), Entry("label", Str(labelText)), Entry("id", Str(name)),
     Entry("class", Str("")), Entry("value", Str("")), Entry("placeholder", Str("")),
     Entry("required", Bool(false)), Entry("disabled", Bool(false)), Entry("readonly", Bool(false)),
     Entry("help", Str("")), Entry("error", Str("")), Entry("choices", Arr([])), Entry("attrs", Arr([])),
     Entry("size", Str("")), Entry("variant", Str("")), Entry("inline", Bool(false))]
  }

  /** The field add_field stores: the caller's options over the defaults. */
  function FieldFrom(kind: string, name: string, labelText: string, opts: Array): Array {
    ParseArgs(opts, FieldDefaults(kind, name, labelText))
  }

  /** The field add_html stores. */
  function HtmlField(html: string): Array {
    [Entry("type", Str("html")), Entry("html", Str(html))]
  }

  /** `$field['type'] === kind` (and the switch on a string type). */
  predicate IsType(f: Array, kind: string) {
    Get(f, "type") == Str(kind)
  }

  // ---------------------------------------------------------------------------
  // sanitize_key, as WordPress defines it: lower-case, then keep only a-z, 0-9, '_' and '-'.
  // ---------------------------------------------------------------------------

  predicate KeyChar(c: char) {
    ('a' <= c <= 'z') || ('0' <= c <= '9') || c == '_' || c == '-'
  }

  function SanitizeKey(s: string): (r: string)
    ensures forall i :: 0 <= i < |r| ==> KeyChar(r[i])
    ensures |r| <= |s|
  {
    if s == [] then []
    else (if KeyChar(LowerChar(s[0])) then [LowerChar(s[0])] else []) + SanitizeKey(s[1..])
  }

  /** A key that is already sanitized is left as it is, so sanitizing twice is sanitizing once. */
  lemma {:induction false} SanitizeKeyIdempotent(s: string)
    ensures SanitizeKey(SanitizeKey(s)) == SanitizeKey(s)
  {
    KeyCharsFixed(SanitizeKey(s));
  }

  lemma {:induction false} KeyCharsFixed(s: string)
    requires forall i :: 0 <= i < |s| ==> KeyChar(s[i])
    ensures SanitizeKey(s) == s
  {
    if s != [] {
      assert KeyChar(s[0]);
      assert LowerChar(s[0]) == s[0];
      KeyCharsFixed(s[1..]);
      assert [s[0]] + s[1..] == s;
    }
  }

  // ---------------------------------------------------------------------------
  // The form element.
  // ---------------------------------------------------------------------------

  function FormClasses(o: Array): seq<string> {
    ["mosaic-form"]
    + (if TruthyAt(o, "wide") then ["mosaic-form-wide"] else [])
    + (if TruthyAt(o, "class") then [GetStr(o, "class")] else [])
  }

  /** The form's attribute array: class and method, then id, action and enctype when set. */
  function FormAttrs(o: Array): Array {
    [Entry("class", Str(Implode(" ", FormClasses(o)))), Entry("method", Get(o, "method"))]
    + (if TruthyAt(o, "id") then [Entry("id", Get(o, "id"))] else [])
    + (if TruthyAt(o, "action") then [Entry("action", Get(o, "action"))] else [])
    + (if TruthyAt(o, "enctype") then [Entry("enctype", Get(o, "enctype"))] else [])
  }

  function NonceAction(o: Array): string {
    if TruthyAt(o, "nonce_action") then GetStr(o, "nonce_action") else "mosaic_form"
  }

  function NonceName(o: Array): string {
    if TruthyAt(o, "nonce") then GetStr(o, "nonce") else "_mosaic_nonce"
  }

  predicate HasNonce(o: Array) {
    TruthyAt(o, "nonce") || TruthyAt(o, "nonce_action")
  }

  function NonceNodes(o: Array): seq<Node> {
    if HasNonce(o) then [Text([Nonce(NonceAction(o), NonceName(o))])] else []
  }

  // ---------------------------------------------------------------------------
  // One field.
  // ---------------------------------------------------------------------------

  /** A line break followed by the template's indentation. */
  function Break(indent: nat): string {
    "\n" + seq(indent, _ => ' ')
  }

  function RequiredMarker(f: Array): seq<Node> {
    if TruthyAt(f, "required") then [Raw(" "), Element("span", [AttrLit("class", "mosaic-required")], [Raw("*")])] else []
  }

  predicate ShowsLabel(f: Array) {
    !IsType(f, "checkbox") && !IsType(f, "toggle") && TruthyAt(f, "label")
  }

  function LabelNodes(f: Array): seq<Node> {
    if ShowsLabel(f) then
      [Element("label", [AttrLit("class", "mosaic-label"), AttrEsc("for", GetStr(f, "id"))],
        [Escaped(EscHtml, GetStr(f, "label"))] + RequiredMarker(f))]
    else []
  }

  /** The help or error span, present when that option is set. */
  function MessageNodes(f: Array, key: string, cls: string): seq<Node> {
    if TruthyAt(f, key) then [Element("span", [AttrLit("class", cls)], [Escaped(EscHtml, GetStr(f, key))])] else []
  }

  function TrailNodes(f: Array): seq<Node> {
    MessageNodes(f, "help", "mosaic-help-text") + MessageNodes(f, "error", "mosaic-error-message")
  }

  function HiddenNode(f: Array): Node {
    Void("input", [AttrLit("type", "hidden"), AttrEsc("name", GetStr(f, "name")), AttrEsc("value", GetStr(f, "value"))])
  }

  /** What render_field prints for one field. */
  function FieldNode(f: Array): Node {
    if IsType(f, "html") then Raw(GetStr(f, "html"))
    else if IsType(f, "hidden") then HiddenNode(f)
    else Element("div", [AttrLit("class", "mosaic-form-group")], LabelNodes(f) + [InputNode(f)] + TrailNodes(f))
  }

  function FieldNodes(fields: seq<Array>): (r: seq<Node>)
    ensures |r| == |fields|
  {
    seq(|fields|, i requires 0 <= i < |fields| => FieldNode(fields[i]))
  }

  // ---------------------------------------------------------------------------
  // render_input.
  // ---------------------------------------------------------------------------

  /** The class of a text-like input, which render_input builds by appending to 'mosaic-input'. */
  function InputClasses(f: Array): seq<string> {
    ["mosaic-input"]
    + (if TruthyAt(f, "size") then ["mosaic-input-" + GetStr(f, "size")] else [])
    + (if TruthyAt(f, "error") then ["mosaic-input-error"] else [])
    + (if TruthyAt(f, "class") then [GetStr(f, "class")] else [])
  }

  function WithCustom(base: string, f: Array): string {
    base + (if TruthyAt(f, "class") then " " + GetStr(f, "class") else "")
  }

  /** name, id and the three flags, then the caller's attrs merged over them. */
  function BaseAttrs(f: Array): Array {
    Merge([Entry("name", Get(f, "name")), Entry("id", Get(f, "id")), Entry("disabled", Bool(TruthyAt(f, "disabled"))),
           Entry("readonly", Bool(TruthyAt(f, "readonly"))), Entry("required", Bool(TruthyAt(f, "required")))],
          GetArray(f, "attrs"))
  }

  function TextareaAttrs(f: Array): Array {
    Set(Set(BaseAttrs(f), "class", Str(WithCustom("mosaic-textarea", f))), "placeholder", Get(f, "placeholder"))
  }

  function SelectAttrs(f: Array): Array {
    Set(BaseAttrs(f), "class", Str(WithCustom("mosaic-select", f)))
  }

  function PlainInputAttrs(f: Array): Array {
    Set(Set(Set(Set(BaseAttrs(f), "type", Get(f, "type")), "class", Str(Implode(" ", InputClasses(f)))),
      "value", Get(f, "value")), "placeholder", Get(f, "placeholder"))
  }

  datatype ChoiceKind = OptionChoice | RadioChoice

  /** One `<option>` of a select, or one labelled radio button, for a choice key => label. */
  function ChoiceNode(kind: ChoiceKind, f: Array, e: Entry): Node {
    match kind
    case OptionChoice =>
      Element("option", [AttrEsc("value", e.key), Spliced([Marked(Selected, Get(f, "value"), Str(e.key))])],
        [Escaped(EscHtml, ToStr(e.val))])
    case RadioChoice =>
      Element("label", [AttrLit("class", "mosaic-label-inline")],
        [Raw(Break(28)),
         Void("input", [AttrLit("type", "radio"), AttrLit("class", "mosaic-radio"), AttrEsc("name", GetStr(f, "name")),
                        AttrEsc("id", GetStr(f, "id") + "_" + SanitizeKey(e.key)), AttrEsc("value", e.key),
                        Spliced([Marked(Checked, Get(f, "value"), Str(e.key))])]),
         Raw(Break(28)), Escaped(EscHtml, ToStr(e.val)), Raw(Break(24))])
  }

  function ChoiceNodes(kind: ChoiceKind, f: Array): (r: seq<Node>)
    ensures |r| == |GetArray(f, "choices")|
  {
    var cs := GetArray(f, "choices");
    seq(|cs|, i requires 0 <= i < |cs| => ChoiceNode(kind, f, cs[i]))
  }

  /** The checkbox input of a checkbox or toggle: checked(value, true), then the caller's attrs. */
  function CheckInputAttrs(cls: string, f: Array): seq<Attr> {
    [AttrLit("type", "checkbox"), AttrLit("class", cls), AttrEsc("name", GetStr(f, "name")), AttrEsc("id", GetStr(f, "id")),
     AttrLit("value", "1"), Spliced([Marked(Checked, Get(f, "value"), Bool(true))])]
    + AttrList(FormStyle, GetArray(f, "attrs"))
  }

  function CheckboxNode(f: Array): Node {
    Element("label", [AttrLit("class", "mosaic-label-inline")],
      [Raw(Break(24)), Void("input", CheckInputAttrs("mosaic-checkbox", f)),
       Raw(Break(24)), Escaped(EscHtml, GetStr(f, "label")), Raw(Break(20))])
  }

  function ToggleClass(f: Array): string {
    "mosaic-toggle" + (if TruthyAt(f, "variant") then " mosaic-toggle-" + GetStr(f, "variant") else "")
  }

  function ToggleNode(f: Array): Node {
    Element("label", [AttrEsc("class", ToggleClass(f))],
      [Raw(Break(24)), Void("input", CheckInputAttrs("mosaic-toggle-input", f)), Raw(Break(24)),
       Element("span", [AttrLit("class", "mosaic-toggle-switch")],
         [Raw(Break(28)), Element("span", [AttrLit("class", "mosaic-toggle-slider")], []), Raw(Break(24))]),
       Raw(Break(24)), Element("span", [AttrLit("class", "mosaic-toggle-label")], [Escaped(EscHtml, GetStr(f, "label"))]),
       Raw(Break(20))])
  }

  function RadioGroupClass(f: Array): string {
    "mosaic-radio-group" + (if TruthyAt(f, "inline") then " mosaic-radio-group-inline" else "")
  }

  function TextareaNode(f: Array): Node {
    Element("textarea", AttrList(FormStyle, TextareaAttrs(f)), [Escaped(EscTextarea, GetStr(f, "value"))])
  }

  function SelectNode(f: Array): Node {
    Element("select", AttrList(FormStyle, SelectAttrs(f)), ChoiceNodes(OptionChoice, f))
  }

  function RadioGroupNode(f: Array): Node {
    Element("div", [AttrEsc("class", RadioGroupClass(f))], ChoiceNodes(RadioChoice, f))
  }

  /** What render_input prints, by the field's type; any other type is a plain `<input>`. */
  function InputNode(f: Array): Node {
    if IsType(f, "textarea") then TextareaNode(f)
    else if IsType(f, "select") then SelectNode(f)
    else if IsType(f, "checkbox") then CheckboxNode(f)
    else if IsType(f, "toggle") then ToggleNode(f)
    else if IsType(f, "radio") then RadioGroupNode(f)
    else Void("input", AttrList(FormStyle, PlainInputAttrs(f)))
  }

  /** What render prints. */
  function FormNode(o: Array, fields: seq<Array>): Node {
    Element("form", AttrList(FormStyle, FormAttrs(o)), NonceNodes(o) + FieldNodes(fields))
  }

  // ---------------------------------------------------------------------------
  // actions().
  // ---------------------------------------------------------------------------

  /** The submit label actions() prints when the caller gives none. */
  const DefaultSubmitLabel: string := "Save Changes"

  function ActionsDefaults(): Array {
    [Entry("cancel_label", Str("")), Entry("cancel_url", Str("")), Entry("align", Str("right")), Entry("loading", Bool(false))]
  }

  function ActionClasses(o: Array): seq<string> {
    ["mosaic-form-actions"] + (if Get(o, "align") != Str("left") then ["mosaic-form-actions-" + GetStr(o, "align")] else [])
  }

  function CancelNodes(o: Array): seq<Node> {
    if TruthyAt(o, "cancel_label") && TruthyAt(o, "cancel_url") then
      [Element("a", [Pair(Lit("href"), [Esc(EscUrl, GetStr(o, "cancel_url"))]), AttrLit("class", "mosaic-btn mosaic-btn-secondary")],
        [Escaped(EscHtml, GetStr(o, "cancel_label"))])]
    else []
  }

  function SubmitClass(o: Array): string {
    "mosaic-btn mosaic-btn-primary" + (if TruthyAt(o, "loading") then " mosaic-btn-loading" else "")
  }

  function SubmitNode(submitLabel: string, o: Array): Node {
    Element("button", [AttrLit("type", "submit"), AttrEsc("class", SubmitClass(o))], [Escaped(EscHtml, submitLabel)])
  }

  /** The form actions bar: an optional cancel link, then the submit button. */
  function ActionsNode(submitLabel: string, options: Array): Node {
    var o := ParseArgs(options, ActionsDefaults());
    Element("div", [ClassAttr(ActionClasses(o))], CancelNodes(o) + [SubmitNode(submitLabel, o)])
  }

  // ---------------------------------------------------------------------------
  // Properties.
  // ---------------------------------------------------------------------------

  /** Caller options override every default; id defaults to the name and type to the add_* kind. */
  lemma FieldOptions(kind: string, name: string, labelText: string, opts: Array, k: string)
    requires WellFormed(opts)
    ensures Get(FieldFrom(kind, name, labelText, opts), k)
         == if HasKey(opts, k) then Get(opts, k) else Get(FieldDefaults(kind, name, labelText), k)
  {
    ParseArgsGet(opts, FieldDefaults(kind, name, labelText), k);
  }

  lemma FieldDefaultIdAndType(kind: string, name: string, labelText: string, opts: Array)
    requires WellFormed(opts)
    ensures !HasKey(opts, "id") ==> Get(FieldFrom(kind, name, labelText, opts), "id") == Str(name)
    ensures !HasKey(opts, "type") ==> IsType(FieldFrom(kind, name, labelText, opts), kind)
  {
    var d := FieldDefaults(kind, name, labelText);
    DefaultIdAndType(kind, name, labelText);
    ParseArgsGet(opts, d, "id");
    ParseArgsGet(opts, d, "type");
  }

  lemma DefaultIdAndType(kind: string, name: string, labelText: string)
    ensures Get(FieldDefaults(kind, name, labelText), "type") == Str(kind)
    ensures Get(FieldDefaults(kind, name, labelText), "id") == Str(name)
  {
    var d := FieldDefaults(kind, name, labelText);
    assert d[0].key == "type" && d[1].key == "name" && d[2].key == "label" && d[3].key == "id";
    assert Get(d, "id") == Get(d[1..], "id") == Get(d[2..], "id") == Get(d[3..], "id");
  }

  /** The form holds the nonce field, if any, then one block per field in insertion order. */
  lemma FieldsInOrder(o: Array, fields: seq<Array>, i: nat)
    requires i < |fields|
    ensures |FormNode(o, fields).kids| == |NonceNodes(o)| + |fields|
    ensures FormNode(o, fields).kids[|NonceNodes(o)| + i] == FieldNode(fields[i])
  {
    var fs := FieldNodes(fields);
    assert FormNode(o, fields).kids == NonceNodes(o) + fs;
    AppendIndex(NonceNodes(o), fs, i);
  }

  /** An html field prints its markup as it is given. */
  lemma HtmlFieldVerbatim(wp: Wp, html: string)
    ensures Serialize(wp, FieldNode(HtmlField(html))) == html
  {
    assert IsType(HtmlField(html), "html");
    GetFirst(HtmlField(html), "html", 1);
    assert GetStr(HtmlField(html), "html") == html;
    TextNodes(wp, EscHtml, html);
  }

  /** method is always in the form's attributes; id, action and enctype only when set. */
  lemma FormAttrRules(o: Array)
    ensures HasKey(FormAttrs(o), "method") && Get(FormAttrs(o), "method") == Get(o, "method")
    ensures HasKey(FormAttrs(o), "id") <==> TruthyAt(o, "id")
    ensures HasKey(FormAttrs(o), "action") <==> TruthyAt(o, "action")
    ensures HasKey(FormAttrs(o), "enctype") <==> TruthyAt(o, "enctype")
  {
    var a := FormAttrs(o);
    assert a[0].key == "class" && a[1].key == "method";
    if TruthyAt(o, "id") { assert a[2].key == "id"; }
    var n := |a|;
    if TruthyAt(o, "enctype") { assert a[n - 1].key == "enctype"; }
    if TruthyAt(o, "action") {
      if TruthyAt(o, "enctype") { assert a[n - 2].key == "action"; } else { assert a[n - 1].key == "action"; }
    }
  }

  /**
   * The label is left out for checkboxes, toggles and empty labels; when
   * printed it ends with the required marker exactly when the field is required.
   */
  lemma LabelRule(f: Array)
    ensures |LabelNodes(f)| == if !IsType(f, "checkbox") && !IsType(f, "toggle") && TruthyAt(f, "label") then 1 else 0
    ensures |LabelNodes(f)| == 1 ==>
      LabelNodes(f)[0].kids[0] == Escaped(EscHtml, GetStr(f, "label"))
      && (|LabelNodes(f)[0].kids| > 1 <==> TruthyAt(f, "required"))
  {
  }

  /** A field that is neither html nor hidden: the label, the input, then help and error. */
  lemma GroupLayout(f: Array)
    requires !IsType(f, "html") && !IsType(f, "hidden")
    ensures FieldNode(f).Element? && FieldNode(f).kids == LabelNodes(f) + [InputNode(f)] + TrailNodes(f)
    ensures |TrailNodes(f)| == (if TruthyAt(f, "help") then 1 else 0) + (if TruthyAt(f, "error") then 1 else 0)
    ensures TruthyAt(f, "help") ==> TrailNodes(f)[0].kids == [Escaped(EscHtml, GetStr(f, "help"))]
    ensures TruthyAt(f, "error") ==> TrailNodes(f)[|TrailNodes(f)| - 1].kids == [Escaped(EscHtml, GetStr(f, "error"))]
  {
  }

  /** An error adds mosaic-input-error to the input class; without one it is absent (barring a size or class that spells it). */
  lemma ErrorClassRule(f: Array)
    ensures TruthyAt(f, "error") ==> "mosaic-input-error" in InputClasses(f)
    ensures !TruthyAt(f, "error") && GetStr(f, "size") != "error" && GetStr(f, "class") != "mosaic-input-error"
         ==> "mosaic-input-error" !in InputClasses(f)
  {
    if "mosaic-input-error" == "mosaic-input-" + GetStr(f, "size") {
      assert ("mosaic-input-" + GetStr(f, "size"))[13..] == GetStr(f, "size");
      assert "mosaic-input-error"[13..] == "error";
    }
    assert "mosaic-input-error" != "mosaic-input" by {
      assert |"mosaic-input-error"| != |"mosaic-input"|;
    }
  }

  /** The plain input's class attribute is the computed class list. */
  lemma PlainInputClass(f: Array)
    ensures Get(PlainInputAttrs(f), "class") == Str(Implode(" ", InputClasses(f)))
  {
    var b := BaseAttrs(f);
    var b1 := Set(b, "type", Get(f, "type"));
    var b2 := Set(b1, "class", Str(Implode(" ", InputClasses(f))));
    var b3 := Set(b2, "value", Get(f, "value"));
    SetGet(b3, "placeholder", Get(f, "placeholder"), "class");
    SetGet(b2, "value", Get(f, "value"), "class");
    SetGet(b1, "class", Str(Implode(" ", InputClasses(f))), "class");
  }

  /**
   * The caller's attrs override name, id and the disabled/readonly/required flags,
   * and on a plain input every key other than type, class, value and placeholder.
   */
  lemma AttrsOverride(f: Array, k: string)
    requires WellFormed(GetArray(f, "attrs")) && HasKey(GetArray(f, "attrs"), k)
    ensures Get(BaseAttrs(f), k) == Get(GetArray(f, "attrs"), k)
    ensures k != "type" && k != "class" && k != "value" && k != "placeholder"
         ==> Get(PlainInputAttrs(f), k) == Get(GetArray(f, "attrs"), k)
  {
    var base := [Entry("name", Get(f, "name")), Entry("id", Get(f, "id")), Entry("disabled", Bool(TruthyAt(f, "disabled"))),
                 Entry("readonly", Bool(TruthyAt(f, "readonly"))), Entry("required", Bool(TruthyAt(f, "required")))];
    MergeGet(base, GetArray(f, "attrs"), k);
    var b := BaseAttrs(f);
    var b1 := Set(b, "type", Get(f, "type"));
    var b2 := Set(b1, "class", Str(Implode(" ", InputClasses(f))));
    var b3 := Set(b2, "value", Get(f, "value"));
    SetGet(b3, "placeholder", Get(f, "placeholder"), k);
    SetGet(b2, "value", Get(f, "value"), k);
    SetGet(b1, "class", Str(Implode(" ", InputClasses(f))), k);
    SetGet(b, "type", Get(f, "type"), k);
  }

  /** A checkbox or toggle takes its checked state from checked(value, true) and nothing else. */
  lemma CheckedFromValue(cls: string, f: Array)
    ensures CheckInputAttrs(cls, f)[5] == Spliced([Marked(Checked, Get(f, "value"), Bool(true))])
    ensures forall j :: 0 <= j < |CheckInputAttrs(cls, f)| && j != 5 ==> !CheckInputAttrs(cls, f)[j].Spliced?
  {
    FormAttrsArePairs(GetArray(f, "attrs"));
  }

  /** A 'checked' option has no effect on a checkbox's or toggle's input. */
  lemma CheckedOptionIgnored(cls: string, f: Array, v: Value)
    ensures CheckInputAttrs(cls, Set(f, "checked", v)) == CheckInputAttrs(cls, f)
  {
    var g := Set(f, "checked", v);
    SetGet(f, "checked", v, "name");
    SetGet(f, "checked", v, "id");
    SetGet(f, "checked", v, "value");
    SetGet(f, "checked", v, "attrs");
  }

  /** The checkbox input is the second child of a checkbox's or toggle's label. */
  lemma CheckInputPlace(f: Array)
    ensures IsType(f, "checkbox") ==> InputNode(f).kids[1] == Void("input", CheckInputAttrs("mosaic-checkbox", f))
    ensures IsType(f, "toggle") ==> InputNode(f).kids[1] == Void("input", CheckInputAttrs("mosaic-toggle-input", f))
  {
  }

  /** The form writer prints only pairs and bare keys. */
  lemma {:induction false} FormAttrsArePairs(a: Array)
    ensures forall j :: 0 <= j < |AttrList(FormStyle, a)| ==> !AttrList(FormStyle, a)[j].Spliced?
  {
    if a != [] {
      FormAttrsArePairs(a[..|a| - 1]);
    }
  }

  /** The nonce field is printed iff nonce or nonce_action is set, falling back to 'mosaic_form' and '_mosaic_nonce'. */
  lemma NonceRule(wp: Wp, o: Array)
    ensures SerializeAll(wp, NonceNodes(o)) == if HasNonce(o) then wp.nonceField(NonceAction(o), NonceName(o)) else ""
    ensures !TruthyAt(o, "nonce_action") ==> NonceAction(o) == "mosaic_form"
    ensures !TruthyAt(o, "nonce") ==> NonceName(o) == "_mosaic_nonce"
  {
    if HasNonce(o) {
      var p := Nonce(NonceAction(o), NonceName(o));
      SerializeAllSingle(wp, Text([p]));
      assert [p][..0] == [];
      assert PiecesText(wp, [p]) == "" + wp.nonceField(NonceAction(o), NonceName(o));
    }
  }

  /** actions(): align 'left' adds no modifier class, any other align adds one. */
  lemma ActionsAlign(o: Array)
    ensures Get(o, "align") == Str("left") ==> ActionClasses(o) == ["mosaic-form-actions"]
    ensures Get(o, "align") != Str("left") ==> ActionClasses(o) == ["mosaic-form-actions", "mosaic-form-actions-" + GetStr(o, "align")]
  {
  }

  /** Without an align option the bar is right-aligned. */
  lemma ActionsDefaultAlign(options: Array)
    requires WellFormed(options) && !HasKey(options, "align")
    ensures ActionClasses(ParseArgs(options, ActionsDefaults())) == ["mosaic-form-actions", "mosaic-form-actions-right"]
  {
    AlignDefault(options);
    RightClasses(ParseArgs(options, ActionsDefaults()));
  }

  lemma AlignDefault(options: Array)
    requires WellFormed(options) && !HasKey(options, "align")
    ensures Get(ParseArgs(options, ActionsDefaults()), "align") == Str("right")
  {
    ActionsDefaultValues();
    ParseArgsGet(options, ActionsDefaults(), "align");
  }

  lemma RightClasses(o: Array)
    requires Get(o, "align") == Str("right")
    ensures ActionClasses(o) == ["mosaic-form-actions", "mosaic-form-actions-right"]
  {
    assert Str("right") != Str("left") by {
      assert "right"[0] != "left"[0];
    }
    ActionsAlign(o);
    assert "mosaic-form-actions-" + "right" == "mosaic-form-actions-right";
  }

  /** The cancel link is printed iff both its label and url are set. */
  lemma CancelIff(options: Array)
    requires WellFormed(options)
    ensures |CancelNodes(ParseArgs(options, ActionsDefaults()))| == 1
        <==> TruthyAt(options, "cancel_label") && TruthyAt(options, "cancel_url")
  {
    var o := ParseArgs(options, ActionsDefaults());
    ActionsDefaultValues();
    ParseArgsGet(options, ActionsDefaults(), "cancel_label");
    ParseArgsGet(options, ActionsDefaults(), "cancel_url");
    GetAbsent(options, "cancel_label");
    GetAbsent(options, "cancel_url");
    assert TruthyAt(o, "cancel_label") == TruthyAt(options, "cancel_label");
    assert TruthyAt(o, "cancel_url") == TruthyAt(options, "cancel_url");
  }

  lemma ActionsDefaultValues()
    ensures Get(ActionsDefaults(), "cancel_label") == Str("") && Get(ActionsDefaults(), "cancel_url") == Str("")
    ensures Get(ActionsDefaults(), "align") == Str("right") && Get(ActionsDefaults(), "loading") == Bool(false)
    ensures var kids := ActionsNode(DefaultSubmitLabel, []).kids;
      kids == [SubmitNode("Save Changes", ActionsDefaults())] && kids[0].kids == [Escaped(EscHtml, "Save Changes")]
  {
    assert ParseArgs([], ActionsDefaults()) == ActionsDefaults();
  }

  /** The submit button comes last, after the optional cancel link. */
  lemma ActionsLayout(submitLabel: string, options: Array)
    ensures var o := ParseArgs(options, ActionsDefaults());
      ActionsNode(submitLabel, options).kids == CancelNodes(o) + [SubmitNode(submitLabel, o)]
      && |CancelNodes(o)| <= 1
  {
  }

  // ---------------------------------------------------------------------------
  // The builder.
  // ---------------------------------------------------------------------------

  lemma FieldNodesSnoc(fields: seq<Array>, i: nat)
    requires i < |fields|
    ensures FieldNodes(fields[..i + 1]) == FieldNodes(fields[..i]) + [FieldNode(fields[i])]
  {
    var a := FieldNodes(fields[..i + 1]);
    var b := FieldNodes(fields[..i]) + [FieldNode(fields[i])];
    assert |a| == |b|;
    forall j | 0 <= j < |a|
      ensures a[j] == b[j]
    {
      assert fields[..i + 1][j] == fields[j];
      if j < i {
        assert fields[..i][j] == fields[j];
      }
    }
  }

  lemma ChoiceNodesSnoc(kind: ChoiceKind, f: Array, i: nat)
    requires i < |GetArray(f, "choices")|
    ensures var cs := GetArray(f, "choices");
      SeqChoiceNodes(kind, f, cs[..i + 1]) == SeqChoiceNodes(kind, f, cs[..i]) + [ChoiceNode(kind, f, cs[i])]
  {
  }

  function SeqChoiceNodes(kind: ChoiceKind, f: Array, cs: Array): seq<Node> {
    seq(|cs|, i requires 0 <= i < |cs| => ChoiceNode(kind, f, cs[i]))
  }

  class Form {
    var options: Array
    var fields: seq<Array>

    constructor(opts: Array)
      ensures options == ParseArgs(opts, FormDefaults()) && fields == []
    {
      options := ParseArgs(opts, FormDefaults());
      fields := [];
    }

    /** Appends one field: the caller's options over the defaults for this kind, name and label. */
    method AddField(kind: string, name: string, labelText: string, opts: Array)
      modifies this
      ensures fields == old(fields) + [FieldFrom(kind, name, labelText, opts)]
      ensures options == old(options)
    {
      fields := fields + [FieldFrom(kind, name, labelText, opts)];
    }

    method AddText(name: string, labelText: string, opts: Array)
      modifies this
      ensures fields == old(fields) + [FieldFrom("text", name, labelText, opts)] && options == old(options)
    {
      AddField("text", name, labelText, opts);
    }

    method AddEmail(name: string, labelText: string, opts: Array)
      modifies this
      ensures fields == old(fields) + [FieldFrom("email", name, labelText, opts)] && options == old(options)
    {
      AddField("email", name, labelText, opts);
    }

    method AddPassword(name: string, labelText: string, opts: Array)
      modifies this
      ensures fields == old(fields) + [FieldFrom("password", name, labelText, opts)] && options == old(options)
    {
      AddField("password", name, labelText, opts);
    }

    method AddNumber(name: string, labelText: string, opts: Array)
      modifies this
      ensures fields == old(fields) + [FieldFrom("number", name, labelText, opts)] && options == old(options)
    {
      AddField("number", name, labelText, opts);
    }

    method AddTextarea(name: string, labelText: string, opts: Array)
      modifies this
      ensures fields == old(fields) + [FieldFrom("textarea", name, labelText, opts)] && options == old(options)
    {
      AddField("textarea", name, labelText, opts);
    }

    method AddCheckbox(name: string, labelText: string, opts: Array)
      modifies this
      ensures fields == old(fields) + [FieldFrom("checkbox", name, labelText, opts)] && options == old(options)
    {
      AddField("checkbox", name, labelText, opts);
    }

    method AddToggle(name: string, labelText: string, opts: Array)
      modifies this
      ensures fields == old(fields) + [FieldFrom("toggle", name, labelText, opts)] && options == old(options)
    {
      AddField("toggle", name, labelText, opts);
    }

    /** The choices argument replaces any 'choices' option. */
    method AddSelect(name: string, labelText: string, choices: Array, opts: Array)
      modifies this
      ensures fields == old(fields) + [FieldFrom("select", name, labelText, Set(opts, "choices", Arr(choices)))]
      ensures options == old(options)
    {
      AddField("select", name, labelText, Set(opts, "choices", Arr(choices)));
    }

    method AddRadio(name: string, labelText: string, choices: Array, opts: Array)
      modifies this
      ensures fields == old(fields) + [FieldFrom("radio", name, labelText, Set(opts, "choices", Arr(choices)))]
      ensures options == old(options)
    {
      AddField("radio", name, labelText, Set(opts, "choices", Arr(choices)));
    }

    method AddHidden(name: string, value: Value)
      modifies this
      ensures fields == old(fields) + [FieldFrom("hidden", name, "", [Entry("value", value)])] && options == old(options)
    {
      AddField("hidden", name, "", [Entry("value", value)]);
    }

    method AddHtml(html: string)
      modifies this
      ensures fields == old(fields) + [HtmlField(html)] && options == old(options)
    {
      fields := fields + [HtmlField(html)];
    }

    /** The foreach over a select's or radio group's choices. */
    method RenderChoices(wp: Wp, kind: ChoiceKind, f: Array) returns (html: string)
      ensures html == SerializeAll(wp, ChoiceNodes(kind, f))
    {
      var cs := GetArray(f, "choices");
      html := "";
      var i := 0;
      while i < |cs|
        invariant 0 <= i <= |cs|
        invariant html == SerializeAll(wp, SeqChoiceNodes(kind, f, cs[..i]))
      {
        ChoiceNodesSnoc(kind, f, i);
        SerializeAllSnoc(wp, SeqChoiceNodes(kind, f, cs[..i]), ChoiceNode(kind, f, cs[i]));
        html := html + Serialize(wp, ChoiceNode(kind, f, cs[i]));
        i := i + 1;
      }
      assert cs[..i] == cs;
    }

    /** render_input. */
    method RenderInput(wp: Wp, f: Array) returns (html: string)
      ensures html == Serialize(wp, InputNode(f))
    {
      if IsType(f, "textarea") {
        html := RenderTextarea(wp, f);
      } else if IsType(f, "select") {
        html := RenderSelect(wp, f);
      } else if IsType(f, "checkbox") {
        html := Serialize(wp, CheckboxNode(f));
      } else if IsType(f, "toggle") {
        html := Serialize(wp, ToggleNode(f));
      } else if IsType(f, "radio") {
        html := RenderRadioGroup(wp, f);
      } else {
        var attrStr := BuildAttrs(wp, FormStyle, PlainInputAttrs(f));
        html := OpenTag("input", attrStr);
      }
    }

    /** The textarea branch: the value escaped for a textarea. */
    method RenderTextarea(wp: Wp, f: Array) returns (html: string)
      ensures html == Serialize(wp, TextareaNode(f))
    {
      html := BuildWrapped(wp, FormStyle, "textarea", TextareaAttrs(f), EscTextarea, GetStr(f, "value"));
    }

    /** The select branch: one option per choice. */
    method RenderSelect(wp: Wp, f: Array) returns (html: string)
      ensures html == Serialize(wp, SelectNode(f))
    {
      var attrStr := BuildAttrs(wp, FormStyle, SelectAttrs(f));
      var choices := RenderChoices(wp, OptionChoice, f);
      html := OpenTag("select", attrStr) + choices + EndTag("select");
      SerializeTags(wp, "select", AttrList(FormStyle, SelectAttrs(f)), ChoiceNodes(OptionChoice, f));
    }

    /** The radio branch: one labelled radio input per choice inside the group. */
    method RenderRadioGroup(wp: Wp, f: Array) returns (html: string)
      ensures html == Serialize(wp, RadioGroupNode(f))
    {
      var groupAttrs := [AttrEsc("class", RadioGroupClass(f))];
      var choices := RenderChoices(wp, RadioChoice, f);
      html := StartTag(wp, "div", groupAttrs) + choices + EndTag("div");
      SerializeTags(wp, "div", groupAttrs, ChoiceNodes(RadioChoice, f));
    }

    /** render_field. */
    method RenderField(wp: Wp, f: Array) returns (html: string)
      ensures html == Serialize(wp, FieldNode(f))
    {
      if IsType(f, "html") {
        TextNodes(wp, EscHtml, GetStr(f, "html"));
        return GetStr(f, "html");
      }
      if IsType(f, "hidden") {
        return Serialize(wp, HiddenNode(f));
      }
      var groupAttrs := [AttrLit("class", "mosaic-form-group")];
      var labelText := SerializeAll(wp, LabelNodes(f));
      var input := RenderInput(wp, f);
      var trail := SerializeAll(wp, TrailNodes(f));
      html := StartTag(wp, "div", groupAttrs) + labelText + input + trail + EndTag("div");
      SerializeParts(wp, "div", groupAttrs, LabelNodes(f), InputNode(f), TrailNodes(f));
    }

    /** The foreach over the fields. */
    method RenderFields(wp: Wp) returns (html: string)
      ensures html == SerializeAll(wp, FieldNodes(fields))
    {
      html := "";
      var i := 0;
      while i < |fields|
        invariant 0 <= i <= |fields|
        invariant html == SerializeAll(wp, FieldNodes(fields[..i]))
      {
        FieldNodesSnoc(fields, i);
        SerializeAllSnoc(wp, FieldNodes(fields[..i]), FieldNode(fields[i]));
        var block := RenderField(wp, fields[i]);
        html := html + block;
        i := i + 1;
      }
      assert fields[..i] == fields;
    }

    /** render: the form tag, the nonce field, every field in order, and the closing tag. */
    method Render(wp: Wp) returns (html: string)
      ensures html == Serialize(wp, FormNode(options, fields))
    {
      var attrStr := BuildAttrs(wp, FormStyle, FormAttrs(options));
      var nonce := "";
      if HasNonce(options) {
        nonce := wp.nonceField(NonceAction(options), NonceName(options));
      }
      var blocks := RenderFields(wp);
      html := OpenTag("form", attrStr) + (nonce + blocks) + EndTag("form");
      NonceRule(wp, options);
      SerializeAllAppend(wp, NonceNodes(options), FieldNodes(fields));
      SerializeTags(wp, "form", AttrList(FormStyle, FormAttrs(options)), NonceNodes(options) + FieldNodes(fields));
    }
  }

  /** actions() prints the bar as one string. */
  method Actions(wp: Wp, submitLabel: string, options: Array) returns (html: string)
    ensures html == Serialize(wp, ActionsNode(submitLabel, options))
  {
    var o := ParseArgs(options, ActionsDefaults());
    html := ActionsBar(wp, submitLabel, o);
  }

  /** The bar for merged options: the cancel link when set, then the submit button. */
  method ActionsBar(wp: Wp, submitLabel: string, o: Array) returns (html: string)
    ensures html == Serialize(wp, Element("div", [ClassAttr(ActionClasses(o))], CancelNodes(o) + [SubmitNode(submitLabel, o)]))
  {
    var barAttrs := [ClassAttr(ActionClasses(o))];
    var cancel := SerializeAll(wp, CancelNodes(o));
    var submit := Serialize(wp, SubmitNode(submitLabel, o));
    html := StartTag(wp, "div", barAttrs) + (cancel + submit) + EndTag("div");
    SerializeAllSnoc(wp, CancelNodes(o), SubmitNode(submitLabel, o));
    SerializeTags(wp, "div", barAttrs, CancelNodes(o) + [SubmitNode(submitLabel, o)]);
  }
}
