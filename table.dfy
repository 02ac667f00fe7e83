/**
 * The PHP table builder (Mosaic_Table): columns are kept under keys, rows in
 * insertion order, and render prints the table with a header cell per column,
 * a body of rows (or the empty-state row), and an optional footer.
 */
module TableBuilder {
  import opened Strings
  import opened Php
  import opened Html

  // ---------------------------------------------------------------------------
  // Defaults and stored state.
  // ---------------------------------------------------------------------------

  function TableDefaults(): Array {
    [Entry("id", Str("")), Entry("class", Str("")), Entry("striped", Bool(true)), Entry("hover", Bool(true)),
     Entry("sticky_header", Bool(true)), Entry("responsive", Bool(false)), Entry("compact", Bool(false)),
     Entry("bordered", Bool(false))]
  }

  function ColumnDefaults(labelValue: Value): Array {
    [Entry("label", labelValue), Entry("class", Str("")), Entry("sortable", Bool(false)),
     Entry("align", Str("left")), Entry("width", Str(""))]
  }

  function RowDefaults(): Array {
    [Entry("class", Str("")), Entry("id", Str("")), Entry("status", Str("")), Entry("attrs", Arr([]))]
  }

  lemma DefaultsWellFormed(labelValue: Value)
    ensures WellFormed(TableDefaults()) && WellFormed(ColumnDefaults(labelValue)) && WellFormed(RowDefaults())
  {
  }

  /** One stored row: the cell data by column key and the row options after defaults. */
  datatype Row = Row(data: Array, options: Array)

  /** The settings add_column stores for a column. */
  function ColumnSettings(labelValue: Value, opts: Array): Value {
    Arr(ParseArgs(opts, ColumnDefaults(labelValue)))
  }

  /** The settings set_columns derives from one entry: a string is the label, an array names its own label or falls back to the key. */
  function ColumnFrom(e: Entry): Value {
    if e.val.Str? then ColumnSettings(e.val, [])
    else
      var column := ArrOf(e.val);
      ColumnSettings(if IsSet(column, "label") then Get(column, "label") else Str(e.key), column)
  }

  /** The columns after set_columns added each entry in turn. */
  function ColumnsAdded(columns: Array, entries: Array): Array
    decreases |entries|
  {
    if entries == [] then columns
    else
      var last := entries[|entries| - 1];
      Set(ColumnsAdded(columns, entries[..|entries| - 1]), last.key, ColumnFrom(last))
  }

  /** The row add_row stores. */
  function RowOf(data: Array, opts: Array): Row {
    Row(data, ParseArgs(opts, RowDefaults()))
  }

  /** The row set_rows adds for one entry: `['data' => …, 'options' => …]` or the bare data. */
  function RowFrom(v: Value): Row {
    var a := ArrOf(v);
    if IsSet(a, "data") then RowOf(ArrOf(Get(a, "data")), ArrOf(Get(a, "options"))) else RowOf(a, [])
  }

  function RowsFrom(entries: Array): (r: seq<Row>)
    ensures |r| == |entries|
  {
    seq(|entries|, i requires 0 <= i < |entries| => RowFrom(entries[i].val))
  }

  function EmptyStateOf(title: string, message: string, icon: string, action: string): Array {
    [Entry("title", Str(title)), Entry("message", Str(message)), Entry("icon", Str(icon)), Entry("action", Str(action))]
  }

  // ---------------------------------------------------------------------------
  // The markup.
  // ---------------------------------------------------------------------------

  function ColumnOf(e: Entry): Array {
    ArrOf(e.val)
  }

  /** The alignment class of a column, present unless align is exactly 'left'. */
  function AlignClasses(col: Array): seq<string> {
    if Get(col, "align") != Str("left") then ["mosaic-text-" + GetStr(col, "align")] else []
  }

  function HeaderClasses(col: Array): seq<string> {
    (if TruthyAt(col, "class") then [GetStr(col, "class")] else [])
    + AlignClasses(col)
    + (if TruthyAt(col, "sortable") then ["mosaic-sortable"] else [])
  }

  /** The style attribute value; it is printed even when empty. */
  function WidthStyle(col: Array): seq<Piece> {
    if TruthyAt(col, "width") then [Lit("width: "), Esc(EscAttr, GetStr(col, "width")), Lit(";")] else []
  }

  function HeaderCell(e: Entry): Node {
    var col := ColumnOf(e);
    Element("th", [ClassAttr(HeaderClasses(col)), Pair(Lit("style"), WidthStyle(col)), AttrEsc("data-column", e.key)],
      [Escaped(EscHtml, GetStr(col, "label"))])
  }

  function HeaderCells(columns: Array): (r: seq<Node>)
    ensures |r| == |columns|
  {
    seq(|columns|, i requires 0 <= i < |columns| => HeaderCell(columns[i]))
  }

  lemma HeaderCellsSnoc(columns: Array, i: nat)
    requires i < |columns|
    ensures HeaderCells(columns[..i + 1]) == HeaderCells(columns[..i]) + [HeaderCell(columns[i])]
  {
  }

  function Header(columns: Array): Node {
    Element("thead", [], [Element("tr", [], HeaderCells(columns))])
  }

  /** The cell value: the row's data under the column key, or '' when it is not set. */
  function CellValue(data: Array, key: string): Value {
    if IsSet(data, key) then Get(data, key) else Str("")
  }

  /** One cell; its value is printed as given, so cells may hold html. */
  function Cell(e: Entry, data: Array): Node {
    var col := ColumnOf(e);
    Element("td", [ClassAttr(AlignClasses(col)), AttrEsc("data-label", GetStr(col, "label"))],
      [Raw(ToStr(CellValue(data, e.key)))])
  }

  function Cells(columns: Array, data: Array): (r: seq<Node>)
    ensures |r| == |columns|
  {
    seq(|columns|, i requires 0 <= i < |columns| => Cell(columns[i], data))
  }

  lemma CellsSnoc(columns: Array, data: Array, i: nat)
    requires i < |columns|
    ensures Cells(columns[..i + 1], data) == Cells(columns[..i], data) + [Cell(columns[i], data)]
  {
  }

  function RowClasses(o: Array): seq<string> {
    (if TruthyAt(o, "status") then ["mosaic-row-" + GetStr(o, "status")] else [])
    + (if TruthyAt(o, "class") then [GetStr(o, "class")] else [])
  }

  /** The row's attribute array: its 'attrs' with class assigned over them and then id when set. */
  function RowAttrs(o: Array): Array {
    var withClass := Set(GetArray(o, "attrs"), "class", Str(Implode(" ", RowClasses(o))));
    if TruthyAt(o, "id") then Set(withClass, "id", Get(o, "id")) else withClass
  }

  function RowWith(attrs: Array, columns: Array, data: Array): Node {
    Element("tr", AttrList(PlainStyle, attrs), Cells(columns, data))
  }

  function RowNode(columns: Array, row: Row): Node {
    RowWith(RowAttrs(row.options), columns, row.data)
  }

  function RowFn(columns: Array): Row -> Node {
    row => RowNode(columns, row)
  }

  function RowNodes(columns: Array, rows: seq<Row>): (r: seq<Node>)
    ensures |r| == |rows|
  {
    Map(RowFn(columns), rows)
  }

  lemma RowNodesSnoc(columns: Array, rows: seq<Row>, i: nat)
    requires i < |rows|
    ensures RowNodes(columns, rows[..i + 1]) == RowNodes(columns, rows[..i]) + [RowNode(columns, rows[i])]
  {
    MapSnoc(RowFn(columns), rows, i);
  }

  /** Row i of the body is the i-th row added. */
  lemma RowNodesAt(columns: Array, rows: seq<Row>, i: nat)
    requires i < |rows|
    ensures RowNodes(columns, rows)[i] == RowNode(columns, rows[i])
  {
  }

  /** The empty-state block: icon, title, message and action, each only when not empty. */
  function EmptyStateNode(es: Array): Node {
    Element("div", [AttrLit("class", "mosaic-table-empty")],
      (if TruthyAt(es, "icon") then [Dashicon(GetStr(es, "icon"))] else [])
      + (if TruthyAt(es, "title") then [Element("div", [AttrLit("class", "mosaic-table-empty-title")], [Escaped(EscHtml, GetStr(es, "title"))])] else [])
      + (if TruthyAt(es, "message") then [Element("div", [AttrLit("class", "mosaic-table-empty-message")], [Escaped(EscHtml, GetStr(es, "message"))])] else [])
      + (if TruthyAt(es, "action") then [Raw(GetStr(es, "action"))] else []))
  }

  /** ` colspan="N"` with N the number of columns, printed by `%d`. */
  function Colspan(columns: Array): Attr {
    AttrLit("colspan", NatToString(|columns|))
  }

  function EmptyRow(columns: Array, es: Array): Node {
    Element("tr", [], [Element("td", [Colspan(columns)], [EmptyStateNode(es)])])
  }

  /** The body shows the empty state when there are no rows and an empty state was set. */
  predicate ShowsEmptyState(rows: seq<Row>, es: Array) {
    rows == [] && es != []
  }

  function BodyRows(columns: Array, rows: seq<Row>, es: Array): seq<Node> {
    if ShowsEmptyState(rows, es) then [EmptyRow(columns, es)] else RowNodes(columns, rows)
  }

  function Body(columns: Array, rows: seq<Row>, es: Array): Node {
    Element("tbody", [], BodyRows(columns, rows, es))
  }

  function FooterNode(columns: Array, footer: string): Node {
    Element("tfoot", [], [Element("tr", [], [Element("td", [Colspan(columns)], [Raw(footer)])])])
  }

  function FooterPart(columns: Array, footer: string): seq<Node> {
    if Truthy(Str(footer)) then [FooterNode(columns, footer)] else []
  }

  function TableClasses(o: Array): seq<string> {
    ["mosaic-table"]
    + (if TruthyAt(o, "striped") then ["mosaic-table-striped"] else [])
    + (if TruthyAt(o, "hover") then ["mosaic-table-hover"] else [])
    + (if TruthyAt(o, "sticky_header") then ["mosaic-table-sticky"] else [])
    + (if TruthyAt(o, "responsive") then ["mosaic-table-responsive"] else [])
    + (if TruthyAt(o, "compact") then ["mosaic-table-compact"] else [])
    + (if TruthyAt(o, "bordered") then ["mosaic-table-bordered"] else [])
    + (if TruthyAt(o, "class") then [GetStr(o, "class")] else [])
  }

  /** The table's attribute array: class, then id when set. */
  function TableAttrs(o: Array): Array {
    [Entry("class", Str(Implode(" ", TableClasses(o))))] + (if TruthyAt(o, "id") then [Entry("id", Get(o, "id"))] else [])
  }

  function TableWith(attrs: Array, columns: Array, rows: seq<Row>, footer: string, es: Array): Node {
    Element("table", AttrList(PlainStyle, attrs), [Header(columns), Body(columns, rows, es)] + FooterPart(columns, footer))
  }

  /** The table render prints for this state. */
  function TableNode(options: Array, columns: Array, rows: seq<Row>, footer: string, es: Array): Node {
    TableWith(TableAttrs(options), columns, rows, footer, es)
  }

  // ---------------------------------------------------------------------------
  // Properties of the state and the markup.
  // ---------------------------------------------------------------------------

  /** TableAttrs is the array render builds by `$attrs['id'] = …` on the class entry. */
  lemma TableAttrsAssigned(o: Array)
    ensures var base := [Entry("class", Str(Implode(" ", TableClasses(o))))];
            TableAttrs(o) == if TruthyAt(o, "id") then Set(base, "id", Get(o, "id")) else base
  {
    var base := [Entry("class", Str(Implode(" ", TableClasses(o))))];
    assert !HasKey(base, "id");
  }

  /** With no options the table is striped, hovers and has a sticky header, in that order. */
  lemma DefaultTableClasses()
    ensures TableClasses(ParseArgs([], TableDefaults())) == ["mosaic-table", "mosaic-table-striped", "mosaic-table-hover", "mosaic-table-sticky"]
  {
    assert ParseArgs([], TableDefaults()) == TableDefaults();
    DefaultFlags();
    FlagClasses(TableDefaults());
  }

  lemma DefaultFlags()
    ensures TruthyAt(TableDefaults(), "striped") && TruthyAt(TableDefaults(), "hover") && TruthyAt(TableDefaults(), "sticky_header")
    ensures !TruthyAt(TableDefaults(), "responsive") && !TruthyAt(TableDefaults(), "compact")
    ensures !TruthyAt(TableDefaults(), "bordered") && !TruthyAt(TableDefaults(), "class")
  {
    DefaultsOn();
    DefaultsOff();
  }

  lemma DefaultsOn()
    ensures Get(TableDefaults(), "striped") == Bool(true) && Get(TableDefaults(), "hover") == Bool(true)
    ensures Get(TableDefaults(), "sticky_header") == Bool(true)
  {
    var d := TableDefaults();
    assert d[2..] == [Entry("striped", Bool(true))] + d[3..];
    assert Get(d, "striped") == Bool(true);
    assert Get(d, "hover") == Bool(true);
    assert Get(d, "sticky_header") == Bool(true);
  }

  lemma DefaultsOff()
    ensures Get(TableDefaults(), "responsive") == Bool(false) && Get(TableDefaults(), "compact") == Bool(false)
    ensures Get(TableDefaults(), "bordered") == Bool(false) && Get(TableDefaults(), "class") == Str("")
  {
    var d := TableDefaults();
    assert Get(d, "class") == Str("");
    assert Get(d, "responsive") == Bool(false);
    assert Get(d, "compact") == Bool(false);
    assert Get(d, "bordered") == Bool(false);
  }

  lemma FlagClasses(o: Array)
    requires TruthyAt(o, "striped") && TruthyAt(o, "hover") && TruthyAt(o, "sticky_header")
    requires !TruthyAt(o, "responsive") && !TruthyAt(o, "compact") && !TruthyAt(o, "bordered") && !TruthyAt(o, "class")
    ensures TableClasses(o) == ["mosaic-table", "mosaic-table-striped", "mosaic-table-hover", "mosaic-table-sticky"]
  {
  }

  /** The custom class comes last, after every flag class. */
  lemma CustomClassLast(o: Array)
    requires TruthyAt(o, "class")
    ensures TableClasses(o)[0] == "mosaic-table" && TableClasses(o)[|TableClasses(o)| - 1] == GetStr(o, "class")
  {
  }

  lemma ColumnsAddedSnoc(columns: Array, entries: Array, i: nat)
    requires i < |entries|
    ensures ColumnsAdded(columns, entries[..i + 1]) == Set(ColumnsAdded(columns, entries[..i]), entries[i].key, ColumnFrom(entries[i]))
  {
    assert entries[..i + 1][..i] == entries[..i];
    assert entries[..i + 1][i] == entries[i];
  }

  /** Each entry set_columns adds ends up under its key with the label rule applied. */
  lemma {:induction false} ColumnsAddedGet(columns: Array, entries: Array, j: nat)
    requires WellFormed(entries) && j < |entries|
    ensures Get(ColumnsAdded(columns, entries), entries[j].key) == ColumnFrom(entries[j])
    decreases |entries|
  {
    var init := entries[..|entries| - 1];
    var last := entries[|entries| - 1];
    SetGet(ColumnsAdded(columns, init), last.key, ColumnFrom(last), entries[j].key);
    if j < |entries| - 1 {
      assert init[j] == entries[j];
      ColumnsAddedGet(columns, init, j);
    }
  }

  /**
   * set_columns labels a column by its string, or by the array's 'label', or
   * else by its key; the other settings take their defaults. An array whose
   * 'label' is present but null keeps null (wp_parse_args copies it), so it
   * prints an empty label rather than the key.
   */
  lemma ColumnLabel(e: Entry)
    requires WellFormed(ArrOf(e.val))
    ensures var col := ArrOf(ColumnFrom(e));
            Get(col, "label") ==
              if e.val.Str? then e.val
              else if HasKey(ArrOf(e.val), "label") then Get(ArrOf(e.val), "label")
              else Str(e.key)
    ensures e.val.Str? ==> Get(ArrOf(ColumnFrom(e)), "align") == Str("left") && Get(ArrOf(ColumnFrom(e)), "sortable") == Bool(false)
  {
    var column := ArrOf(e.val);
    if e.val.Str? {
      var d := ColumnDefaults(e.val);
      DefaultsWellFormed(e.val);
      assert ParseArgs([], d) == d;
      assert d[0].key == "label" && d[2].key == "sortable" && d[3].key == "align";
      GetFirst(d, "sortable", 2);
      GetFirst(d, "align", 3);
    } else {
      var lbl := if IsSet(column, "label") then Get(column, "label") else Str(e.key);
      GetAbsent(column, "label");
      ParseArgsGet(column, ColumnDefaults(lbl), "label");
      assert ColumnDefaults(lbl)[0].key == "label";
    }
  }

  /**
   * Each printed row has exactly one cell per column, in column order, labelled
   * by the column; a data key the row does not set prints ''.
   */
  lemma {:induction false} OneCellPerColumn(columns: Array, row: Row, i: nat)
    requires i < |columns|
    ensures |RowNode(columns, row).kids| == |columns|
    ensures RowNode(columns, row).kids[i].tag == "td"
    ensures RowNode(columns, row).kids[i].attrs[1] == AttrEsc("data-label", GetStr(ColumnOf(columns[i]), "label"))
    ensures RowNode(columns, row).kids[i].kids == [Raw(ToStr(CellValue(row.data, columns[i].key)))]
    ensures !IsSet(row.data, columns[i].key) ==> RowNode(columns, row).kids[i].kids == [Raw("")]
  {
    assert RowNode(columns, row).kids == Cells(columns, row.data);
    assert Cells(columns, row.data)[i] == Cell(columns[i], row.data);
  }

  /** The header has one cell per column, naming the column's key, in column order. */
  lemma OneHeaderCellPerColumn(columns: Array, i: nat)
    requires i < |columns|
    ensures |Header(columns).kids[0].kids| == |columns|
    ensures Header(columns).kids[0].kids[i].tag == "th"
    ensures Header(columns).kids[0].kids[i].attrs[2] == AttrEsc("data-column", columns[i].key)
  {
    assert Header(columns).kids[0].kids == HeaderCells(columns);
    assert HeaderCells(columns)[i] == HeaderCell(columns[i]);
  }

  /**
   * A column gets an alignment class exactly when align is not 'left', and the
   * sortable class exactly when sortable is truthy (its custom class aside).
   */
  lemma HeaderClassRules(col: Array)
    requires !StartsWith(GetStr(col, "class"), "mosaic-text-") && GetStr(col, "class") != "mosaic-sortable"
    ensures ("mosaic-sortable" in HeaderClasses(col)) <==> TruthyAt(col, "sortable")
    ensures (exists c :: c in HeaderClasses(col) && StartsWith(c, "mosaic-text-")) <==> Get(col, "align") != Str("left")
    ensures Get(col, "align") != Str("left") ==> "mosaic-text-" + GetStr(col, "align") in HeaderClasses(col)
  {
    var own := if TruthyAt(col, "class") then [GetStr(col, "class")] else [];
    var sort := if TruthyAt(col, "sortable") then ["mosaic-sortable"] else [];
    assert HeaderClasses(col) == own + AlignClasses(col) + sort;
    NotTextClass();
    if Get(col, "align") != Str("left") {
      AlignClassShape(GetStr(col, "align"));
    }
  }

  lemma NotTextClass()
    ensures !StartsWith("mosaic-sortable", "mosaic-text-")
  {
    assert "mosaic-sortable"[7] == 's' && "mosaic-text-"[7] == 't';
  }

  lemma AlignClassShape(align: string)
    ensures StartsWith("mosaic-text-" + align, "mosaic-text-")
    ensures "mosaic-text-" + align != "mosaic-sortable"
  {
    var c := "mosaic-text-" + align;
    assert c[..12] == "mosaic-text-";
    assert c[7] == 't' && "mosaic-sortable"[7] == 's';
  }

  /** A body row that carries the empty state: one cell spanning columns, as no data row prints it. */
  predicate IsEmptyStateRow(n: Node) {
    n.Element? && n.tag == "tr" && |n.kids| == 1 && n.kids[0].Element? && |n.kids[0].attrs| == 1
    && n.kids[0].attrs[0].Pair? && n.kids[0].attrs[0].name == Lit("colspan")
  }

  /**
   * The body shows the empty-state row exactly when there are no rows and an
   * empty state was set, spanning as many columns as there are; otherwise it
   * shows every row, in insertion order.
   */
  lemma EmptyStateRowIff(columns: Array, rows: seq<Row>, es: Array)
    ensures (exists i :: 0 <= i < |BodyRows(columns, rows, es)| && IsEmptyStateRow(BodyRows(columns, rows, es)[i]))
            <==> ShowsEmptyState(rows, es)
    ensures ShowsEmptyState(rows, es) ==>
      BodyRows(columns, rows, es)[0].kids[0].attrs[0].value == [Lit(NatToString(|columns|))]
      && DigitsValue(NatToString(|columns|)) == |columns|
    ensures !ShowsEmptyState(rows, es) ==>
      |BodyRows(columns, rows, es)| == |rows|
      && forall i :: 0 <= i < |rows| ==> BodyRows(columns, rows, es)[i] == RowNode(columns, rows[i])
  {
    DigitsValueOfNatToString(|columns|);
    var body := BodyRows(columns, rows, es);
    if ShowsEmptyState(rows, es) {
      assert IsEmptyStateRow(body[0]);
    } else {
      forall i | 0 <= i < |rows|
        ensures body[i] == RowNode(columns, rows[i])
      {
        RowNodesAt(columns, rows, i);
      }
      forall i | 0 <= i < |body|
        ensures !IsEmptyStateRow(body[i])
      {
        var n := RowNode(columns, rows[i]);
        assert body[i] == n;
        if |n.kids| == 1 {
          assert n.kids[0] == Cell(columns[0], rows[i].data);
        }
      }
    }
  }

  /** The footer appears exactly when the footer text is truthy, spanning all columns. */
  lemma FooterIff(options: Array, columns: Array, rows: seq<Row>, footer: string, es: Array)
    ensures var t := TableNode(options, columns, rows, footer, es);
            (|t.kids| == 3 <==> Truthy(Str(footer)))
            && t.kids[0].tag == "thead" && t.kids[1].tag == "tbody"
            && (Truthy(Str(footer)) ==>
                  t.kids[2].tag == "tfoot" && t.kids[2].kids[0].kids[0].attrs == [Colspan(columns)]
                  && t.kids[2].kids[0].kids[0].kids == [Raw(footer)])
  {
  }

  /**
   * The row class mosaic-row-STATUS comes from the 'status' option alone: no
   * other option (such as 'state') adds it (its custom class aside).
   */
  lemma RowStatusClass(o: Array)
    requires !StartsWith(GetStr(o, "class"), "mosaic-row-")
    ensures (exists c :: c in RowClasses(o) && StartsWith(c, "mosaic-row-")) <==> TruthyAt(o, "status")
    ensures TruthyAt(o, "status") ==> RowClasses(o)[0] == "mosaic-row-" + GetStr(o, "status")
  {
    var own := if TruthyAt(o, "class") then [GetStr(o, "class")] else [];
    if TruthyAt(o, "status") {
      var c := "mosaic-row-" + GetStr(o, "status");
      assert c[..11] == "mosaic-row-";
      assert RowClasses(o) == [c] + own;
      assert c in RowClasses(o);
    } else {
      assert RowClasses(o) == own;
    }
  }

  /** Setting an option render does not read (such as 'state') leaves the row's markup unchanged. */
  lemma UnreadRowOption(columns: Array, data: Array, o: Array, k: string, v: Value)
    requires k != "status" && k != "class" && k != "id" && k != "attrs"
    ensures RowNode(columns, Row(data, Set(o, k, v))) == RowNode(columns, Row(data, o))
  {
    var o' := Set(o, k, v);
    SetGet(o, k, v, "status");
    SetGet(o, k, v, "class");
    SetGet(o, k, v, "id");
    SetGet(o, k, v, "attrs");
    assert RowClasses(o') == RowClasses(o);
    assert RowAttrs(o') == RowAttrs(o);
  }

  // ---------------------------------------------------------------------------
  // The builder.
  // ---------------------------------------------------------------------------

  class Table {
    var options: Array
    var columns: Array
    var rows: seq<Row>
    var footer: string
    var emptyState: Array

    ghost predicate Valid()
      reads this
    {
      WellFormed(columns)
    }

    /** Caller options override the defaults; no columns, rows, footer or empty state yet. */
    constructor(opts: Array)
      ensures Valid()
      ensures options == ParseArgs(opts, TableDefaults())
      ensures columns == [] && rows == [] && footer == "" && emptyState == []
    {
      options := ParseArgs(opts, TableDefaults());
      columns := [];
      rows := [];
      footer := "";
      emptyState := [];
    }

    /** Stores the column under its key: a new key goes last, an existing key is redefined in place. */
    method AddColumn(key: string, labelValue: Value, opts: Array)
      modifies this
      requires Valid()
      ensures Valid()
      ensures columns == Set(old(columns), key, ColumnSettings(labelValue, opts))
      ensures Keys(columns) == if HasKey(old(columns), key) then Keys(old(columns)) else Keys(old(columns)) + [key]
      ensures Get(columns, key) == ColumnSettings(labelValue, opts)
      ensures options == old(options) && rows == old(rows) && footer == old(footer) && emptyState == old(emptyState)
    {
      SetWellFormed(columns, key, ColumnSettings(labelValue, opts));
      SetGet(columns, key, ColumnSettings(labelValue, opts), key);
      columns := Set(columns, key, ColumnSettings(labelValue, opts));
    }

    /** Adds each entry as a column, in order. */
    method SetColumns(entries: Array)
      modifies this
      requires Valid()
      ensures Valid()
      ensures columns == ColumnsAdded(old(columns), entries)
      ensures options == old(options) && rows == old(rows) && footer == old(footer) && emptyState == old(emptyState)
    {
      var i := 0;
      while i < |entries|
        invariant 0 <= i <= |entries|
        invariant Valid()
        invariant columns == ColumnsAdded(old(columns), entries[..i])
        invariant options == old(options) && rows == old(rows) && footer == old(footer) && emptyState == old(emptyState)
      {
        var e := entries[i];
        ColumnsAddedSnoc(old(columns), entries, i);
        if e.val.Str? {
          AddColumn(e.key, e.val, []);
        } else {
          var column := ArrOf(e.val);
          var lbl := if IsSet(column, "label") then Get(column, "label") else Str(e.key);
          AddColumn(e.key, lbl, column);
        }
        i := i + 1;
      }
      assert entries[..i] == entries;
    }

    /** Appends the row with its options after defaults. */
    method AddRow(data: Array, opts: Array)
      modifies this
      requires Valid()
      ensures Valid()
      ensures rows == old(rows) + [RowOf(data, opts)]
      ensures options == old(options) && columns == old(columns) && footer == old(footer) && emptyState == old(emptyState)
    {
      rows := rows + [RowOf(data, opts)];
    }

    /** Adds each entry as a row, in order. */
    method SetRows(entries: Array)
      modifies this
      requires Valid()
      ensures Valid()
      ensures rows == old(rows) + RowsFrom(entries)
      ensures options == old(options) && columns == old(columns) && footer == old(footer) && emptyState == old(emptyState)
    {
      var i := 0;
      while i < |entries|
        invariant 0 <= i <= |entries|
        invariant Valid()
        invariant rows == old(rows) + RowsFrom(entries[..i])
        invariant options == old(options) && columns == old(columns) && footer == old(footer) && emptyState == old(emptyState)
      {
        var a := ArrOf(entries[i].val);
        assert RowsFrom(entries[..i + 1]) == RowsFrom(entries[..i]) + [RowFrom(entries[i].val)];
        if IsSet(a, "data") {
          AddRow(ArrOf(Get(a, "data")), ArrOf(Get(a, "options")));
        } else {
          AddRow(a, []);
        }
        i := i + 1;
      }
      assert entries[..i] == entries;
    }

    method SetFooter(content: string)
      modifies this
      requires Valid()
      ensures Valid()
      ensures footer == content
      ensures options == old(options) && columns == old(columns) && rows == old(rows) && emptyState == old(emptyState)
    {
      footer := content;
    }

    method SetEmptyState(title: string, message: string, icon: string, action: string)
      modifies this
      requires Valid()
      ensures Valid()
      ensures emptyState == EmptyStateOf(title, message, icon, action)
      ensures options == old(options) && columns == old(columns) && rows == old(rows) && footer == old(footer)
    {
      emptyState := EmptyStateOf(title, message, icon, action);
    }

    /** The header: one cell per column, in column order. */
    method RenderHeader(wp: Wp) returns (html: string)
      ensures html == Serialize(wp, Header(columns))
    {
      var cells := "";
      var i := 0;
      while i < |columns|
        invariant 0 <= i <= |columns|
        invariant cells == SerializeAll(wp, HeaderCells(columns[..i]))
      {
        HeaderCellsSnoc(columns, i);
        SerializeAllSnoc(wp, HeaderCells(columns[..i]), HeaderCell(columns[i]));
        cells := cells + Serialize(wp, HeaderCell(columns[i]));
        i := i + 1;
      }
      assert columns[..i] == columns;
      var row := StartTag(wp, "tr", []) + cells + EndTag("tr");
      html := StartTag(wp, "thead", []) + row + EndTag("thead");
      var tr := Element("tr", [], HeaderCells(columns));
      SerializeTags(wp, "tr", [], HeaderCells(columns));
      SerializeWrap(wp, "thead", [], tr);
    }

    /** One row: the start tag with its attributes, one cell per column, the end tag. */
    method RenderRowWith(wp: Wp, attrs: Array, data: Array) returns (html: string)
      ensures html == Serialize(wp, RowWith(attrs, columns, data))
    {
      var attrStr := BuildAttrs(wp, PlainStyle, attrs);
      var cells := "";
      var i := 0;
      while i < |columns|
        invariant 0 <= i <= |columns|
        invariant cells == SerializeAll(wp, Cells(columns[..i], data))
      {
        CellsSnoc(columns, data, i);
        SerializeAllSnoc(wp, Cells(columns[..i], data), Cell(columns[i], data));
        cells := cells + Serialize(wp, Cell(columns[i], data));
        i := i + 1;
      }
      assert columns[..i] == columns;
      html := OpenTag("tr", attrStr) + cells + EndTag("tr");
      SerializeTags(wp, "tr", AttrList(PlainStyle, attrs), Cells(columns, data));
    }

    method RenderRow(wp: Wp, row: Row) returns (html: string)
      ensures html == Serialize(wp, RowNode(columns, row))
    {
      html := RenderRowWith(wp, RowAttrs(row.options), row.data);
    }

    method RenderEmptyState(wp: Wp) returns (html: string)
      ensures html == Serialize(wp, EmptyStateNode(emptyState))
    {
      var es := emptyState;
      var icon: seq<Node> := if TruthyAt(es, "icon") then [Dashicon(GetStr(es, "icon"))] else [];
      var title: seq<Node> := if TruthyAt(es, "title") then [Element("div", [AttrLit("class", "mosaic-table-empty-title")], [Escaped(EscHtml, GetStr(es, "title"))])] else [];
      var message: seq<Node> := if TruthyAt(es, "message") then [Element("div", [AttrLit("class", "mosaic-table-empty-message")], [Escaped(EscHtml, GetStr(es, "message"))])] else [];
      var action: seq<Node> := if TruthyAt(es, "action") then [Raw(GetStr(es, "action"))] else [];
      var inner := SerializeAll(wp, icon);
      inner := inner + SerializeAll(wp, title);
      inner := inner + SerializeAll(wp, message);
      inner := inner + SerializeAll(wp, action);
      html := StartTag(wp, "div", [AttrLit("class", "mosaic-table-empty")]) + inner + EndTag("div");
      SerializeAllAppend(wp, icon, title);
      SerializeAllAppend(wp, icon + title, message);
      SerializeAllAppend(wp, icon + title + message, action);
      SerializeTags(wp, "div", [AttrLit("class", "mosaic-table-empty")], icon + title + message + action);
    }

    /** The rows loop of render_body. */
    method RenderRows(wp: Wp) returns (html: string)
      ensures html == SerializeAll(wp, RowNodes(columns, rows))
    {
      html := "";
      var i := 0;
      while i < |rows|
        invariant 0 <= i <= |rows|
        invariant html == SerializeAll(wp, RowNodes(columns, rows[..i]))
      {
        RowNodesSnoc(columns, rows, i);
        SerializeAllSnoc(wp, RowNodes(columns, rows[..i]), RowNode(columns, rows[i]));
        var r := RenderRow(wp, rows[i]);
        html := html + r;
        i := i + 1;
      }
      assert rows[..i] == rows;
    }

    method RenderBody(wp: Wp) returns (html: string)
      ensures html == Serialize(wp, Body(columns, rows, emptyState))
    {
      var inner := "";
      if ShowsEmptyState(rows, emptyState) {
        var es := RenderEmptyState(wp);
        var td := Element("td", [Colspan(columns)], [EmptyStateNode(emptyState)]);
        var cell := StartTag(wp, "td", [Colspan(columns)]) + es + EndTag("td");
        var row := StartTag(wp, "tr", []) + cell + EndTag("tr");
        SerializeWrap(wp, "td", [Colspan(columns)], EmptyStateNode(emptyState));
        SerializeWrap(wp, "tr", [], td);
        SerializeAllSingle(wp, EmptyRow(columns, emptyState));
        inner := row;
      } else {
        inner := RenderRows(wp);
      }
      html := StartTag(wp, "tbody", []) + inner + EndTag("tbody");
      SerializeTags(wp, "tbody", [], BodyRows(columns, rows, emptyState));
    }

    method RenderFooter(wp: Wp) returns (html: string)
      ensures html == Serialize(wp, FooterNode(columns, footer))
    {
      var td := Element("td", [Colspan(columns)], [Raw(footer)]);
      var tr := Element("tr", [], [td]);
      var cell := StartTag(wp, "td", [Colspan(columns)]) + footer + EndTag("td");
      var row := StartTag(wp, "tr", []) + cell + EndTag("tr");
      html := StartTag(wp, "tfoot", []) + row + EndTag("tfoot");
      TextNodes(wp, EscHtml, footer);
      SerializeWrap(wp, "td", [Colspan(columns)], Raw(footer));
      SerializeWrap(wp, "tr", [], td);
      SerializeWrap(wp, "tfoot", [], tr);
    }

    /** The table around the given attribute array. */
    method RenderTableWith(wp: Wp, attrs: Array) returns (html: string)
      ensures html == Serialize(wp, TableWith(attrs, columns, rows, footer, emptyState))
    {
      var attrStr := BuildAttrs(wp, PlainStyle, attrs);
      var header := RenderHeader(wp);
      var body := RenderBody(wp);
      var foot := "";
      if Truthy(Str(footer)) {
        foot := RenderFooter(wp);
        SerializeAllSingle(wp, FooterNode(columns, footer));
      }
      html := OpenTag("table", attrStr) + header + body + foot + EndTag("table");
      SerializeAllSingle(wp, Header(columns));
      assert [Header(columns), Body(columns, rows, emptyState)] + FooterPart(columns, footer)
          == [Header(columns)] + [Body(columns, rows, emptyState)] + FooterPart(columns, footer);
      SerializeParts(wp, "table", AttrList(PlainStyle, attrs), [Header(columns)], Body(columns, rows, emptyState),
        FooterPart(columns, footer));
    }

    /** `render`: the whole table. */
    method Render(wp: Wp) returns (html: string)
      ensures html == Serialize(wp, TableNode(options, columns, rows, footer, emptyState))
    {
      html := RenderTableWith(wp, TableAttrs(options));
    }
  }
}
