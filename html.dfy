/**
 * The markup the PHP builders print, as a tree. Serialize turns a tree into
 * exactly the text the builders' sprintf templates concatenate. Values that
 * the builders pass through WordPress's escaping functions stay symbolic
 * (Esc pieces) until serialisation, where a Wp record supplies the functions;
 * every property proved over trees therefore holds whatever those functions do.
 */
module Html {
  import opened Strings
  import opened Php

  /** The WordPress output functions the builders call. */
  datatype Filter = EscHtml | EscAttr | EscUrl | EscTextarea | KsesPost

  /** WordPress's form-state helpers: checked() and selected(), called with display = false. */
  datatype Mark = Checked | Selected

  /**
   * WordPress's implementations of the filters, of wp_nonce_field and of
   * checked()/selected(), supplied from outside.
   */
  datatype Wp = Wp(
    escHtml: string -> string,
    escAttr: string -> string,
    escUrl: string -> string,
    escTextarea: string -> string,
    ksesPost: string -> string,
    nonceField: (string, string) -> string,
    checked: (Value, Value) -> string,
    selected: (Value, Value) -> string)

  /**
   * A piece of output text: a literal, a filtered value, the markup of
   * wp_nonce_field(action, name), or what checked($helper, $current) or
   * selected($helper, $current) returns.
   */
  datatype Piece =
    | Lit(text: string)
    | Esc(filter: Filter, raw: string)
    | Nonce(action: string, name: string)
    | Marked(mark: Mark, helper: Value, current: Value)

  /** One attribute inside a start tag. */
  datatype Attr =
    | Pair(name: Piece, value: seq<Piece>)   // ` name="value"`
    | Bare(name: Piece)                      // ` name`
    | Spliced(text: seq<Piece>)              // text spliced into the tag as it is

  datatype Node =
    | Element(tag: string, attrs: seq<Attr>, kids: seq<Node>)   // <tag attrs>kids</tag>
    | Void(tag: string, attrs: seq<Attr>)                      // <tag attrs>
    | Text(pieces: seq<Piece>)

  function ApplyFilter(wp: Wp, f: Filter, s: string): string {
    match f
    case EscHtml => wp.escHtml(s)
    case EscAttr => wp.escAttr(s)
    case EscUrl => wp.escUrl(s)
    case EscTextarea => wp.escTextarea(s)
    case KsesPost => wp.ksesPost(s)
  }

  function PieceText(wp: Wp, p: Piece): string {
    match p
    case Lit(t) => t
    case Esc(f, raw) => ApplyFilter(wp, f, raw)
    case Nonce(a, n) => wp.nonceField(a, n)
    case Marked(Checked, h, c) => wp.checked(h, c)
    case Marked(Selected, h, c) => wp.selected(h, c)
  }

  function PiecesText(wp: Wp, ps: seq<Piece>): string {
    if ps == [] then "" else PiecesText(wp, ps[..|ps| - 1]) + PieceText(wp, ps[|ps| - 1])
  }

  function AttrText(wp: Wp, a: Attr): string {
    match a
    case Pair(n, v) => " " + PieceText(wp, n) + "=\"" + PiecesText(wp, v) + "\""
    case Bare(n) => " " + PieceText(wp, n)
    case Spliced(t) => PiecesText(wp, t)
  }

  function AttrsText(wp: Wp, ats: seq<Attr>): string {
    if ats == [] then "" else AttrsText(wp, ats[..|ats| - 1]) + AttrText(wp, ats[|ats| - 1])
  }


  function Serialize(wp: Wp, n: Node): string
    decreases n
  {
    match n
    case Element(tag, ats, kids) => "<" + tag + AttrsText(wp, ats) + ">" + SerializeAll(wp, kids) + "</" + tag + ">"
    case Void(tag, ats) => "<" + tag + AttrsText(wp, ats) + ">"
    case Text(ps) => PiecesText(wp, ps)
  }

  /** The text of a list of sibling nodes, in order. */
  function SerializeAll(wp: Wp, ns: seq<Node>): string
    decreases ns
  {
    if ns == [] then "" else SerializeAll(wp, ns[..|ns| - 1]) + Serialize(wp, ns[|ns| - 1])
  }

  lemma SerializeElement(wp: Wp, tag: string, ats: seq<Attr>, kids: seq<Node>)
    ensures Serialize(wp, Element(tag, ats, kids))
         == "<" + tag + AttrsText(wp, ats) + ">" + SerializeAll(wp, kids) + "</" + tag + ">"
  {
  }

  /** `<tag` followed by already printed attribute text and `>`, as `sprintf('<tag%s>', $attrs)`. */
  function OpenTag(tag: string, attrText: string): string {
    "<" + tag + attrText + ">"
  }

  /** The start tag an element prints, `<tag attrs>`. */
  function StartTag(wp: Wp, tag: string, ats: seq<Attr>): string {
    OpenTag(tag, AttrsText(wp, ats))
  }

  function EndTag(tag: string): string {
    "</" + tag + ">"
  }

  /** An element prints its start tag, its children in order, and its end tag. */
  lemma SerializeTags(wp: Wp, tag: string, ats: seq<Attr>, kids: seq<Node>)
    ensures Serialize(wp, Element(tag, ats, kids)) == StartTag(wp, tag, ats) + SerializeAll(wp, kids) + EndTag(tag)
  {
    SerializeElement(wp, tag, ats, kids);
  }

  /** Appending one more sibling appends its text. */
  lemma SerializeAllSnoc(wp: Wp, ns: seq<Node>, n: Node)
    ensures SerializeAll(wp, ns + [n]) == SerializeAll(wp, ns) + Serialize(wp, n)
  {
    assert (ns + [n])[..|ns|] == ns;
  }

  lemma {:induction false} SerializeAllAppend(wp: Wp, ns: seq<Node>, ms: seq<Node>)
    ensures SerializeAll(wp, ns + ms) == SerializeAll(wp, ns) + SerializeAll(wp, ms)
    decreases |ms|
  {
    if ms == [] {
      AppendNone(ns);
    } else {
      var init := ms[..|ms| - 1];
      var last := ms[|ms| - 1];
      SplitLast(ns, ms);
      SerializeAllSnoc(wp, ns + init, last);
      SerializeAllAppend(wp, ns, init);
      SerializeAllSnoc(wp, init, last);
      Assoc(SerializeAll(wp, ns), SerializeAll(wp, init), Serialize(wp, last));
    }
  }

  /** Splitting off the last element of a non-empty suffix. */
  lemma SplitLast<T>(ns: seq<T>, ms: seq<T>)
    requires ms != []
    ensures ms == ms[..|ms| - 1] + [ms[|ms| - 1]]
    ensures ns + ms == (ns + ms[..|ms| - 1]) + [ms[|ms| - 1]]
  {
  }

  lemma AppendNone<T>(ns: seq<T>)
    ensures ns + [] == ns
  {
  }

  /** The prefix one longer than xs[..i] is xs[..i] followed by xs[i]. */
  lemma PrefixStep<T>(xs: seq<T>, i: nat)
    requires i < |xs|
    ensures |xs[..i + 1]| == i + 1 && xs[..i + 1][..i] == xs[..i] && xs[..i + 1][i] == xs[i]
  {
  }

  /** The i-th element of the second part of a concatenation. */
  lemma AppendIndex<T>(a: seq<T>, b: seq<T>, i: nat)
    requires i < |b|
    ensures |a + b| == |a| + |b| && (a + b)[|a| + i] == b[i]
  {
  }

  lemma Singleton<T>(xs: seq<T>)
    requires |xs| == 1
    ensures xs == [xs[0]]
  {
  }

  lemma SerializeAllSingle(wp: Wp, n: Node)
    ensures SerializeAll(wp, [n]) == Serialize(wp, n)
  {
    SerializeAllSnoc(wp, [], n);
    assert [] + [n] == [n];
  }

  /** An element with one child prints its start tag, the child, and its end tag. */
  lemma SerializeWrap(wp: Wp, tag: string, ats: seq<Attr>, n: Node)
    ensures Serialize(wp, Element(tag, ats, [n])) == StartTag(wp, tag, ats) + Serialize(wp, n) + EndTag(tag)
  {
    SerializeAllSingle(wp, n);
    SerializeTags(wp, tag, ats, [n]);
  }

  /** An element whose children are optional leading nodes, one node and trailing nodes. */
  lemma SerializeParts(wp: Wp, tag: string, ats: seq<Attr>, head: seq<Node>, mid: Node, tail: seq<Node>)
    ensures Serialize(wp, Element(tag, ats, head + [mid] + tail))
         == StartTag(wp, tag, ats) + SerializeAll(wp, head) + Serialize(wp, mid) + SerializeAll(wp, tail) + EndTag(tag)
  {
    SerializeTags(wp, tag, ats, head + [mid] + tail);
    PartsText(wp, head, mid, tail);
    Regroup(StartTag(wp, tag, ats), SerializeAll(wp, head), Serialize(wp, mid), SerializeAll(wp, tail), EndTag(tag));
  }

  lemma Regroup(a: string, b: string, c: string, d: string, e: string)
    ensures a + (b + c + d) + e == a + b + c + d + e
  {
  }

  lemma Regroup4(a: string, b: string, c: string, d: string)
    ensures a + b + c + d == a + (b + c) + d
  {
  }

  lemma PartsText(wp: Wp, head: seq<Node>, mid: Node, tail: seq<Node>)
    ensures SerializeAll(wp, head + [mid] + tail) == SerializeAll(wp, head) + Serialize(wp, mid) + SerializeAll(wp, tail)
  {
    SerializeAllAppend(wp, head + [mid], tail);
    SerializeAllSnoc(wp, head, mid);
  }

  lemma AttrsTextSnoc(wp: Wp, ats: seq<Attr>, a: Attr)
    ensures AttrsText(wp, ats + [a]) == AttrsText(wp, ats) + AttrText(wp, a)
  {
    assert (ats + [a])[..|ats|] == ats;
  }

  /** A literal text node. */
  function Raw(s: string): Node {
    Text([Lit(s)])
  }

  /** A text node holding one filtered value. */
  function Escaped(f: Filter, s: string): Node {
    Text([Esc(f, s)])
  }

  /** A text node prints its text: a literal as it is, a filtered value through its filter. */
  lemma TextNodes(wp: Wp, f: Filter, s: string)
    ensures Serialize(wp, Raw(s)) == s
    ensures Serialize(wp, Escaped(f, s)) == ApplyFilter(wp, f, s)
  {
    assert [Lit(s)][..0] == [] && [Esc(f, s)][..0] == [];
    assert PiecesText(wp, [Lit(s)]) == "" + s;
    assert "" + s == s;
  }

  /** An element holding one filtered value prints it between its tags. */
  lemma WrapEscaped(wp: Wp, tag: string, ats: seq<Attr>, f: Filter, s: string)
    ensures Serialize(wp, Element(tag, ats, [Escaped(f, s)])) == StartTag(wp, tag, ats) + ApplyFilter(wp, f, s) + EndTag(tag)
  {
    TextNodes(wp, f, s);
    SerializeWrap(wp, tag, ats, Escaped(f, s));
  }

  /** An element around one filtered value, printed as the start tag, the filtered value and the end tag. */
  method BuildWrapped(wp: Wp, style: Style, tag: string, attrs: Array, f: Filter, s: string) returns (html: string)
    ensures html == Serialize(wp, Element(tag, AttrList(style, attrs), [Escaped(f, s)]))
  {
    var attrStr := BuildAttrs(wp, style, attrs);
    html := OpenTag(tag, attrStr) + ApplyFilter(wp, f, s) + EndTag(tag);
    WrapEscaped(wp, tag, AttrList(style, attrs), f, s);
  }

  /** Each string is the printed text of the node at the same position. */
  predicate Prints(wp: Wp, texts: seq<string>, ns: seq<Node>) {
    |texts| == |ns| && forall i :: 0 <= i < |texts| ==> texts[i] == Serialize(wp, ns[i])
  }

  lemma PrintsOne(wp: Wp, t: string, n: Node)
    requires t == Serialize(wp, n)
    ensures Prints(wp, [t], [n])
  {
  }

  lemma PrintsNone(wp: Wp)
    ensures Prints(wp, [], [])
  {
  }

  lemma PrintsConcat(wp: Wp, t1: seq<string>, n1: seq<Node>, t2: seq<string>, n2: seq<Node>)
    requires Prints(wp, t1, n1) && Prints(wp, t2, n2)
    ensures Prints(wp, t1 + t2, n1 + n2)
  {
    forall i | 0 <= i < |t1 + t2|
      ensures (t1 + t2)[i] == Serialize(wp, (n1 + n2)[i])
    {
      if i < |t1| {
        assert (t1 + t2)[i] == t1[i] && (n1 + n2)[i] == n1[i];
      } else {
        assert (t1 + t2)[i] == t2[i - |t1|] && (n1 + n2)[i] == n2[i - |t1|];
      }
    }
  }

  /** The dashicon span the builders print, `<span class="dashicons dashicons-NAME"></span>`. */
  function Dashicon(name: string): Node {
    Element("span", [Pair(Lit("class"), [Lit("dashicons dashicons-"), Esc(EscAttr, name)])], [])
  }

  /** A template attribute ` name="esc_attr(value)"`. */
  function AttrEsc(name: string, value: string): Attr {
    Pair(Lit(name), [Esc(EscAttr, value)])
  }

  /** A template attribute ` name="value"` with a literal value. */
  function AttrLit(name: string, value: string): Attr {
    Pair(Lit(name), [Lit(value)])
  }

  /** Class list joined with spaces, as `implode(' ', $classes)`. */
  function ClassText(classes: seq<string>): string {
    Join(classes, " ")
  }

  /** The attribute ` class="esc_attr(implode(' ', classes))"`. */
  function ClassAttr(classes: seq<string>): Attr {
    AttrEsc("class", ClassText(classes))
  }

  /**
   * In f + [a if pa] + [b if pb] + [c if pc] the fixed classes come first, each
   * optional class sits at its own place, and (when it clashes with no other
   * class) it appears exactly when its condition holds.
   */
  lemma OrderedClasses(f: seq<string>, pa: bool, a: string, pb: bool, b: string, pc: bool, c: string)
    ensures var l := f + (if pa then [a] else []) + (if pb then [b] else []) + (if pc then [c] else []);
      && l[..|f|] == f
      && |l| == |f| + (if pa then 1 else 0) + (if pb then 1 else 0) + (if pc then 1 else 0)
      && (pa ==> l[|f|] == a)
      && (pb ==> l[|f| + (if pa then 1 else 0)] == b)
      && (pc ==> l[|l| - 1] == c)
      && (a !in f && (pb ==> a != b) && (pc ==> a != c) ==> (pa <==> a in l))
      && (b !in f && (pa ==> b != a) && (pc ==> b != c) ==> (pb <==> b in l))
      && (c !in f && (pa ==> c != a) && (pb ==> c != b) ==> (pc <==> c in l))
  {
    var oa: seq<string> := if pa then [a] else [];
    var ob: seq<string> := if pb then [b] else [];
    var oc: seq<string> := if pc then [c] else [];
    var l := f + oa + ob + oc;
    assert l == f + (oa + ob + oc);
    assert l[..|f|] == f;
    forall x
      ensures x in l <==> x in f || x in oa || x in ob || x in oc
    {
      assert x in l <==> x in f + (oa + ob + oc);
    }
    if pb {
      assert l[|f| + |oa|] == (oa + ob + oc)[|oa|];
    }
  }

  /**
   * The class names an attribute list gives an element, as a browser reads them:
   * the first ` class="…"` written from one escaped value, split at spaces (the
   * names are those passed to esc_attr).
   */
  function ClassesIn(ats: seq<Attr>): seq<string> {
    if ats == [] then []
    else if ats[0].Pair? && ats[0].name == Lit("class") && |ats[0].value| == 1 && ats[0].value[0].Esc?
    then Split(ats[0].value[0].raw, ' ')
    else ClassesIn(ats[1..])
  }

  function ClassNames(n: Node): seq<string> {
    if n.Text? then [] else ClassesIn(n.attrs)
  }

  /** A class attribute built from space-free names gives back exactly those names. */
  lemma ClassAttrNames(cs: seq<string>, rest: seq<Attr>)
    requires |cs| >= 1 && forall c :: c in cs ==> ' ' !in c
    ensures ClassesIn([ClassAttr(cs)] + rest) == cs
  {
    SplitJoin(cs, ' ');
  }

  // ---------------------------------------------------------------------------
  // The three attribute writers of the builders.
  // ---------------------------------------------------------------------------

  /** ` esc_attr(key)="esc_attr(value)"`, as build_attrs prints one pair. */
  function KeyValue(e: Entry): Attr {
    Pair(Esc(EscAttr, e.key), [Esc(EscAttr, ToStr(e.val))])
  }

  /** One entry under build_attrs of the tabs, table, card and accordion builders: '' and null are left out. */
  function PlainAttr(e: Entry): seq<Attr> {
    if e.val == Str("") || e.val == Null then [] else [KeyValue(e)]
  }

  /** One entry under the form builder's build_attrs: true prints the bare key; false, null and '' are left out. */
  function FormAttr(e: Entry): seq<Attr> {
    if e.val == Bool(true) then [Bare(Esc(EscAttr, e.key))]
    else if e.val == Bool(false) || e.val == Null || e.val == Str("") then []
    else [KeyValue(e)]
  }

  /** One entry under Mosaic::tag: true prints the bare key; false and null are left out, '' is kept. */
  function TagAttr(e: Entry): seq<Attr> {
    if e.val == Bool(true) then [Bare(Esc(EscAttr, e.key))]
    else if e.val == Bool(false) || e.val == Null then []
    else [KeyValue(e)]
  }

  datatype Style = PlainStyle | FormStyle | TagStyle

  function AttrFor(style: Style, e: Entry): seq<Attr> {
    match style
    case PlainStyle => PlainAttr(e)
    case FormStyle => FormAttr(e)
    case TagStyle => TagAttr(e)
  }

  /** The nodes f gives for the elements of xs, in order. */
  function Map<T>(f: T -> Node, xs: seq<T>): (r: seq<Node>)
    ensures |r| == |xs|
  {
    seq(|xs|, i requires 0 <= i < |xs| => f(xs[i]))
  }

  lemma MapSnoc<T>(f: T -> Node, xs: seq<T>, i: nat)
    requires i < |xs|
    ensures Map(f, xs[..i + 1]) == Map(f, xs[..i]) + [f(xs[i])]
  {
  }

  /** The attributes an attribute writer prints for an array, in the array's order. */
  function AttrList(style: Style, a: Array): (r: seq<Attr>)
  {
    if a == [] then [] else AttrList(style, a[..|a| - 1]) + AttrFor(style, a[|a| - 1])
  }

  /** An entry contributes an attribute exactly when its writer keeps it. */
  predicate Kept(style: Style, v: Value) {
    match style
    case PlainStyle => v != Str("") && v != Null
    case FormStyle => v != Bool(false) && v != Null && v != Str("")
    case TagStyle => v != Bool(false) && v != Null
  }

  /** An entry prints one attribute when its writer keeps it and nothing otherwise. */
  lemma AttrForKept(style: Style, e: Entry)
    ensures |AttrFor(style, e)| == if Kept(style, e.val) then 1 else 0
    ensures Kept(style, e.val) && (style == PlainStyle || e.val != Bool(true)) ==> AttrFor(style, e) == [KeyValue(e)]
    ensures Kept(style, e.val) && style != PlainStyle && e.val == Bool(true) ==> AttrFor(style, e) == [Bare(Esc(EscAttr, e.key))]
  {
  }

  /** The number of attributes printed is the number of entries kept. */
  lemma {:induction false} AttrListCount(style: Style, a: Array)
    ensures |AttrList(style, a)| == CountKept(style, a)
    decreases |a|
  {
    if a != [] {
      AttrListCount(style, a[..|a| - 1]);
      AttrForKept(style, a[|a| - 1]);
    }
  }

  function CountKept(style: Style, a: Array): nat {
    if a == [] then 0 else CountKept(style, a[..|a| - 1]) + (if Kept(style, a[|a| - 1].val) then 1 else 0)
  }

  /** The text one entry contributes under a writer. */
  function EntryText(wp: Wp, style: Style, e: Entry): string {
    AttrsText(wp, AttrFor(style, e))
  }

  lemma AttrListStep(wp: Wp, style: Style, attrs: Array, i: nat)
    requires i < |attrs|
    ensures AttrsText(wp, AttrList(style, attrs[..i + 1]))
         == AttrsText(wp, AttrList(style, attrs[..i])) + EntryText(wp, style, attrs[i])
  {
    PrefixStep(attrs, i);
    var done := AttrList(style, attrs[..i]);
    var piece := AttrFor(style, attrs[i]);
    assert AttrList(style, attrs[..i + 1]) == done + piece;
    EntryTextKept(wp, style, attrs[i]);
    AttrForKept(style, attrs[i]);
    if piece != [] {
      Singleton(piece);
      AttrsTextSnoc(wp, done, piece[0]);
    } else {
      AppendNone(done);
    }
  }

  lemma EntryTextKept(wp: Wp, style: Style, e: Entry)
    ensures !Kept(style, e.val) ==> EntryText(wp, style, e) == ""
    ensures Kept(style, e.val) ==> |AttrFor(style, e)| == 1 && EntryText(wp, style, e) == AttrText(wp, AttrFor(style, e)[0])
  {
    AttrForKept(style, e);
    if Kept(style, e.val) {
      var p := AttrFor(style, e)[0];
      AttrsTextSnoc(wp, [], p);
      assert [] + [p] == AttrFor(style, e);
    }
  }

  /**
   * The foreach loop that every build_attrs (and Mosaic::tag) runs: one pass over
   * the array, appending the text of each entry the writer keeps.
   */
  method BuildAttrs(wp: Wp, style: Style, attrs: Array) returns (str: string)
    ensures str == AttrsText(wp, AttrList(style, attrs))
  {
    str := "";
    var i := 0;
    while i < |attrs|
      invariant 0 <= i <= |attrs|
      invariant str == AttrsText(wp, AttrList(style, attrs[..i]))
    {
      var e := attrs[i];
      AttrListStep(wp, style, attrs, i);
      EntryTextKept(wp, style, e);
      if Kept(style, e.val) {
        str := str + AttrText(wp, AttrFor(style, e)[0]);
      }
      i := i + 1;
    }
    assert attrs[..i] == attrs;
  }
}
