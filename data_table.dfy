/**
 * The data table (Mosaic_Data_Table): a table whose rows get an 'actions' cell
 * of Edit and Delete buttons, built when the row is added, from URL patterns
 * with an `{id}` placeholder or from callables.
 */
module DataTableBuilder {
  import opened Strings
  import opened Php
  import opened Html
  import opened Mosaic
  import opened TableBuilder

  /** An edit or delete action: not set, a URL pattern, or a callable given the row and its id. */
  datatype Action = NoAction | Pattern(url: string) | Callback(call: (Array, Value) -> string)

  /** `if ($this->edit_action)`: a callable is truthy, a pattern when its text is. */
  predicate Enabled(a: Action) {
    match a
    case NoAction => false
    case Pattern(u) => Truthy(Str(u))
    case Callback(_) => true
  }

  /** The action settings the row actions are built from. */
  datatype Settings = Settings(edit: Action, delete: Action, editLabel: string, deleteLabel: string, idKey: string)

  predicate AnyEnabled(s: Settings) {
    Enabled(s.edit) || Enabled(s.delete)
  }

  /** The row's id: its value under the id key, or '' when not set. */
  function RowId(idKey: string, row: Array): Value {
    if IsSet(row, idKey) then Get(row, idKey) else Str("")
  }

  /** `resolve_action_url`: a callable's result as it is, or the pattern with every `{id}` replaced. */
  function ResolveUrl(a: Action, row: Array, id: Value): string {
    match a
    case Callback(f) => f(row, id)
    case Pattern(u) => ReplaceAll(u, "{id}", ToStr(id))
    case NoAction => ""
  }

  const confirmText := "Are you sure you want to delete this item?"

  function EditOptions(href: string): Array {
    [Entry("variant", Str("primary")), Entry("href", Str(href))]
  }

  function DeleteOptions(href: string): Array {
    [Entry("variant", Str("danger-outline")), Entry("href", Str(href)), Entry("class", Str("mosaic-confirm-delete")),
     Entry("attrs", Arr([Entry("data-confirm", Str(confirmText))]))]
  }

  function EditButton(wp: Wp, s: Settings, row: Array): Node {
    ButtonNode(wp, s.editLabel, EditOptions(ResolveUrl(s.edit, row, RowId(s.idKey, row))))
  }

  function DeleteButton(wp: Wp, s: Settings, row: Array): Node {
    ButtonNode(wp, s.deleteLabel, DeleteOptions(ResolveUrl(s.delete, row, RowId(s.idKey, row))))
  }

  /** Edit then Delete, each only when its action is enabled. */
  function ActionButtons(wp: Wp, s: Settings, row: Array): seq<Node> {
    (if Enabled(s.edit) then [EditButton(wp, s, row)] else [])
    + (if Enabled(s.delete) then [DeleteButton(wp, s, row)] else [])
  }

  const actionsOpen := [AttrLit("class", "mosaic-table-actions")]

  /** `render_row_actions`: '' without buttons, otherwise the buttons in their wrapper. */
  function ActionsText(wp: Wp, s: Settings, row: Array): string {
    var buttons := ActionButtons(wp, s, row);
    if buttons == [] then "" else Serialize(wp, Element("div", actionsOpen, buttons))
  }

  /** The data add_row hands on: actions added when an action is enabled and the caller gave none. */
  function WithActions(wp: Wp, s: Settings, data: Array): Array {
    if AnyEnabled(s) && !IsSet(data, "actions") then Set(data, "actions", Str(ActionsText(wp, s, data))) else data
  }

  function AddButtonOptions(href: string, opts: Array): Array {
    Merge([Entry("variant", Str("primary")), Entry("icon", Str("plus-alt")), Entry("href", Str(href))], opts)
  }

  /** The column render adds when an action is enabled. */
  function ActionsColumn(): Value {
    ColumnSettings(Str("Actions"), [])
  }

  // ---------------------------------------------------------------------------
  // Properties.
  // ---------------------------------------------------------------------------

  /**
   * The actions cell is added exactly when an action is enabled and the row
   * does not set 'actions'; no other cell changes.
   */
  lemma ActionsCellRule(wp: Wp, s: Settings, data: Array, k: string)
    ensures Get(WithActions(wp, s, data), "actions") ==
      if AnyEnabled(s) && !IsSet(data, "actions") then Str(ActionsText(wp, s, data)) else Get(data, "actions")
    ensures k != "actions" ==> Get(WithActions(wp, s, data), k) == Get(data, k)
    ensures !AnyEnabled(s) ==> WithActions(wp, s, data) == data
  {
    if AnyEnabled(s) && !IsSet(data, "actions") {
      SetGet(data, "actions", Str(ActionsText(wp, s, data)), "actions");
      SetGet(data, "actions", Str(ActionsText(wp, s, data)), k);
    }
  }

  /**
   * The row set_rows adds for one entry on a data table: set_rows calls the
   * overriding add_row, so the entry's data passes through the actions rule.
   */
  function ActionRowFrom(wp: Wp, s: Settings, v: Value): Row {
    var a := ArrOf(v);
    if IsSet(a, "data") then RowOf(WithActions(wp, s, ArrOf(Get(a, "data"))), ArrOf(Get(a, "options")))
    else RowOf(WithActions(wp, s, a), [])
  }

  function ActionRowsFrom(wp: Wp, s: Settings, entries: Array): (r: seq<Row>)
    ensures |r| == |entries|
  {
    seq(|entries|, i requires 0 <= i < |entries| => ActionRowFrom(wp, s, entries[i].val))
  }

  /**
   * Bulk rows on a data table are the plain table's bulk rows with the actions
   * rule applied: the same options and the same cells other than 'actions',
   * an 'actions' cell in every row when an action is enabled, and exactly the
   * plain rows when none is.
   */
  lemma BulkRowsGetActions(wp: Wp, s: Settings, entries: Array)
    ensures var r := ActionRowsFrom(wp, s, entries);
      && |r| == |RowsFrom(entries)|
      && (forall i :: 0 <= i < |r| ==> r[i].options == RowsFrom(entries)[i].options)
      && (forall i, k :: 0 <= i < |r| && k != "actions" ==> Get(r[i].data, k) == Get(RowsFrom(entries)[i].data, k))
      && (AnyEnabled(s) ==> forall i :: 0 <= i < |r| ==> IsSet(r[i].data, "actions"))
      && (!AnyEnabled(s) ==> r == RowsFrom(entries))
  {
    var r := ActionRowsFrom(wp, s, entries);
    forall i, k | 0 <= i < |r|
      ensures r[i].options == RowsFrom(entries)[i].options
      ensures k != "actions" ==> Get(r[i].data, k) == Get(RowsFrom(entries)[i].data, k)
      ensures AnyEnabled(s) ==> IsSet(r[i].data, "actions")
      ensures !AnyEnabled(s) ==> r[i] == RowsFrom(entries)[i]
    {
      var a := ArrOf(entries[i].val);
      var d := if IsSet(a, "data") then ArrOf(Get(a, "data")) else a;
      ActionsCellRule(wp, s, d, k);
    }
  }

  /**
   * Every `{id}` placeholder in a pattern is replaced by the row's id, which is
   * '' when the row has no value under the id key.
   */
  lemma PatternIdReplaced(parts: seq<string>, idKey: string, row: Array)
    requires |parts| >= 1 && forall p :: p in parts ==> '{' !in p
    ensures ResolveUrl(Pattern(Join(parts, "{id}")), row, RowId(idKey, row)) == Join(parts, ToStr(RowId(idKey, row)))
    ensures !IsSet(row, idKey) ==> ResolveUrl(Pattern(Join(parts, "{id}")), row, RowId(idKey, row)) == Join(parts, "")
  {
    ReplaceJoin(parts, "{id}", ToStr(RowId(idKey, row)));
  }

  /** A pattern without the placeholder is used as it is. */
  lemma PatternWithoutPlaceholder(url: string, row: Array, id: Value)
    requires !Contains(url, "{id}")
    ensures ResolveUrl(Pattern(url), row, id) == url
  {
    ReplaceAbsent(url, "{id}", ToStr(id));
  }

  lemma ButtonOptionsWellFormed(href: string)
    ensures WellFormed(EditOptions(href)) && WellFormed(DeleteOptions(href))
  {
  }

  /**
   * The Edit button links to the resolved URL, escaped (a callable's result is
   * taken as it is); an empty URL gives a plain button instead of a link.
   */
  lemma EditButtonHref(wp: Wp, s: Settings, row: Array)
    ensures var href := ResolveUrl(s.edit, row, RowId(s.idKey, row));
            var o := ParseArgs(EditOptions(href), ButtonDefaults());
            (EditButton(wp, s, row).tag == "a" <==> Truthy(Str(href)))
            && (Truthy(Str(href)) ==> Get(ButtonAttrs(wp, o), "href") == Str(wp.escUrl(href)))
    ensures s.edit.Callback? ==> ResolveUrl(s.edit, row, RowId(s.idKey, row)) == s.edit.call(row, RowId(s.idKey, row))
  {
    var href := ResolveUrl(s.edit, row, RowId(s.idKey, row));
    var o := ParseArgs(EditOptions(href), ButtonDefaults());
    ButtonOptionsWellFormed(href);
    ParseArgsGet(EditOptions(href), ButtonDefaults(), "href");
    assert EditOptions(href)[1].key == "href";
    ButtonLinkIffHref(wp, s.editLabel, EditOptions(href));
  }

  /** The Delete button carries the confirmation prompt and the confirm-delete class. */
  lemma DeleteButtonConfirms(wp: Wp, s: Settings, row: Array)
    ensures var href := ResolveUrl(s.delete, row, RowId(s.idKey, row));
            var o := ParseArgs(DeleteOptions(href), ButtonDefaults());
            Get(ButtonAttrs(wp, o), "data-confirm") == Str(confirmText)
            && GetStr(o, "class") == "mosaic-confirm-delete" && GetStr(o, "variant") == "danger-outline"
  {
    var href := ResolveUrl(s.delete, row, RowId(s.idKey, row));
    var d := DeleteOptions(href);
    var o := ParseArgs(d, ButtonDefaults());
    ButtonOptionsWellFormed(href);
    assert d[0].key == "variant" && d[2].key == "class" && d[3].key == "attrs";
    ParseArgsGet(d, ButtonDefaults(), "attrs");
    ParseArgsGet(d, ButtonDefaults(), "class");
    ParseArgsGet(d, ButtonDefaults(), "variant");
    GetFound(d, "attrs", 3);
    GetFound(d, "class", 2);
    GetFound(d, "variant", 0);
    var attrs := [Entry("data-confirm", Str(confirmText))];
    assert GetArray(o, "attrs") == attrs;
    assert attrs[0].key == "data-confirm";
    CallerAttrsOverride(wp, o, "data-confirm");
  }

  /** The actions markup lists Edit before Delete, each present only when enabled. */
  lemma ActionsOrder(wp: Wp, s: Settings, row: Array)
    ensures |ActionButtons(wp, s, row)| == (if Enabled(s.edit) then 1 else 0) + (if Enabled(s.delete) then 1 else 0)
    ensures Enabled(s.edit) ==> ActionButtons(wp, s, row)[0] == EditButton(wp, s, row)
    ensures Enabled(s.delete) ==> ActionButtons(wp, s, row)[|ActionButtons(wp, s, row)| - 1] == DeleteButton(wp, s, row)
    ensures ActionsText(wp, s, row) == "" <==> !AnyEnabled(s)
  {
    if AnyEnabled(s) {
      var n := Element("div", actionsOpen, ActionButtons(wp, s, row));
      SerializeTags(wp, "div", actionsOpen, ActionButtons(wp, s, row));
      assert |StartTag(wp, "div", actionsOpen)| > 0;
    }
  }

  /** Adding the actions column again changes nothing, so renders never duplicate it. */
  lemma ActionsColumnOnce(columns: Array)
    requires WellFormed(columns)
    ensures Set(Set(columns, "actions", ActionsColumn()), "actions", ActionsColumn()) == Set(columns, "actions", ActionsColumn())
    ensures Keys(Set(columns, "actions", ActionsColumn())) ==
      if HasKey(columns, "actions") then Keys(columns) else Keys(columns) + ["actions"]
  {
    SetSetSame(columns, "actions", ActionsColumn());
    SetWellFormed(columns, "actions", ActionsColumn());
  }

  // ---------------------------------------------------------------------------
  // The builder.
  // ---------------------------------------------------------------------------

  /** Mosaic_Data_Table: the inherited table state lives in `table`. */
  class DataTable {
    const table: Table
    var editAction: Action
    var deleteAction: Action
    var editLabel: string
    var deleteLabel: string
    var idKey: string
    var headerTitle: Value
    var headerActions: string

    ghost predicate Valid()
      reads this, table
    {
      table.Valid()
    }

    function CurrentSettings(): Settings
      reads this
    {
      Settings(editAction, deleteAction, editLabel, deleteLabel, idKey)
    }

    constructor(opts: Array)
      ensures Valid() && fresh(table)
      ensures table.options == ParseArgs(opts, TableDefaults())
      ensures table.columns == [] && table.rows == [] && table.footer == "" && table.emptyState == []
      ensures CurrentSettings() == Settings(NoAction, NoAction, "Edit", "Delete", "id")
    {
      table := new Table(opts);
      editAction := NoAction;
      deleteAction := NoAction;
      editLabel := "Edit";
      deleteLabel := "Delete";
      idKey := "id";
      headerTitle := Null;
      headerActions := "";
    }

    /** Stores the title; render never reads it. */
    method SetTitle(title: Value)
      modifies this
      requires Valid()
      ensures Valid()
      ensures headerTitle == title && headerActions == old(headerActions)
      ensures CurrentSettings() == old(CurrentSettings()) && unchanged(table)
    {
      headerTitle := title;
    }

    /** Stores an add button (primary, plus-alt icon, linking to href); render never reads it. */
    method SetAddButton(wp: Wp, labelText: string, href: string, opts: Array)
      modifies this
      requires Valid()
      ensures Valid()
      ensures headerActions == Serialize(wp, ButtonNode(wp, labelText, AddButtonOptions(href, opts)))
      ensures headerTitle == old(headerTitle)
      ensures CurrentSettings() == old(CurrentSettings()) && unchanged(table)
    {
      headerActions := Button(wp, labelText, AddButtonOptions(href, opts));
    }

    method EnableEdit(action: Action, labelText: string)
      modifies this
      requires Valid()
      ensures Valid()
      ensures CurrentSettings() == old(CurrentSettings()).(edit := action, editLabel := labelText)
      ensures headerTitle == old(headerTitle) && headerActions == old(headerActions) && unchanged(table)
    {
      editAction := action;
      editLabel := labelText;
    }

    method EnableDelete(action: Action, labelText: string)
      modifies this
      requires Valid()
      ensures Valid()
      ensures CurrentSettings() == old(CurrentSettings()).(delete := action, deleteLabel := labelText)
      ensures headerTitle == old(headerTitle) && headerActions == old(headerActions) && unchanged(table)
    {
      deleteAction := action;
      deleteLabel := labelText;
    }

    method SetIdKey(key: string)
      modifies this
      requires Valid()
      ensures Valid()
      ensures CurrentSettings() == old(CurrentSettings()).(idKey := key)
      ensures headerTitle == old(headerTitle) && headerActions == old(headerActions) && unchanged(table)
    {
      idKey := key;
    }

    /** Builds the actions markup for one row from the current settings. */
    method RenderRowActions(wp: Wp, row: Array) returns (html: string)
      ensures html == ActionsText(wp, CurrentSettings(), row)
    {
      var buttons := RowButtons(wp, row);
      if buttons == [] {
        return "";
      }
      html := StartTag(wp, "div", actionsOpen) + Implode("", buttons) + EndTag("div");
      var ns := ActionButtons(wp, CurrentSettings(), row);
      ActionsJoined(wp, ns, buttons);
      SerializeTags(wp, "div", actionsOpen, ns);
    }

    /** The buttons array: the edit button, then the delete button, each when its action is enabled. */
    method RowButtons(wp: Wp, row: Array) returns (buttons: seq<string>)
      ensures Prints(wp, buttons, ActionButtons(wp, CurrentSettings(), row)) && |buttons| <= 2
    {
      ghost var s := CurrentSettings();
      var id := RowId(idKey, row);
      var edit := [];
      ghost var editNodes: seq<Node> := [];
      PrintsNone(wp);
      if Enabled(editAction) {
        var b := EditButtonHtml(wp, row, id);
        edit := [b];
        editNodes := [EditButton(wp, s, row)];
        PrintsOne(wp, b, EditButton(wp, s, row));
      }
      var delete := [];
      ghost var deleteNodes: seq<Node> := [];
      if Enabled(deleteAction) {
        var b := DeleteButtonHtml(wp, row, id);
        delete := [b];
        deleteNodes := [DeleteButton(wp, s, row)];
        PrintsOne(wp, b, DeleteButton(wp, s, row));
      }
      buttons := edit + delete;
      PrintsConcat(wp, edit, editNodes, delete, deleteNodes);
      assert ActionButtons(wp, s, row) == editNodes + deleteNodes;
    }

    method EditButtonHtml(wp: Wp, row: Array, id: Value) returns (b: string)
      requires id == RowId(idKey, row)
      ensures b == Serialize(wp, EditButton(wp, CurrentSettings(), row))
    {
      var href := ResolveUrl(editAction, row, id);
      b := Button(wp, editLabel, EditOptions(href));
    }

    method DeleteButtonHtml(wp: Wp, row: Array, id: Value) returns (b: string)
      requires id == RowId(idKey, row)
      ensures b == Serialize(wp, DeleteButton(wp, CurrentSettings(), row))
    {
      var href := ResolveUrl(deleteAction, row, id);
      b := Button(wp, deleteLabel, DeleteOptions(href));
    }

    /** Adds the row, first adding its actions cell when the rule calls for one. */
    method AddRow(wp: Wp, data: Array, opts: Array)
      modifies table
      requires Valid()
      ensures Valid()
      ensures table.rows == old(table.rows) + [RowOf(WithActions(wp, CurrentSettings(), data), opts)]
      ensures table.options == old(table.options) && table.columns == old(table.columns)
      ensures table.footer == old(table.footer) && table.emptyState == old(table.emptyState)
    {
      var d := data;
      if (Enabled(editAction) || Enabled(deleteAction)) && !IsSet(data, "actions") {
        var actions := RenderRowActions(wp, data);
        d := Set(d, "actions", Str(actions));
      }
      table.AddRow(d, opts);
    }

    /** set_rows on a data table: each entry goes through the overriding add_row, in order. */
    method SetRows(wp: Wp, entries: Array)
      modifies table
      requires Valid()
      ensures Valid()
      ensures table.rows == old(table.rows) + ActionRowsFrom(wp, CurrentSettings(), entries)
      ensures table.options == old(table.options) && table.columns == old(table.columns)
      ensures table.footer == old(table.footer) && table.emptyState == old(table.emptyState)
    {
      var i := 0;
      while i < |entries|
        invariant 0 <= i <= |entries|
        invariant Valid()
        invariant table.rows == old(table.rows) + ActionRowsFrom(wp, CurrentSettings(), entries[..i])
        invariant table.options == old(table.options) && table.columns == old(table.columns)
        invariant table.footer == old(table.footer) && table.emptyState == old(table.emptyState)
      {
        var a := ArrOf(entries[i].val);
        assert ActionRowsFrom(wp, CurrentSettings(), entries[..i + 1])
            == ActionRowsFrom(wp, CurrentSettings(), entries[..i]) + [ActionRowFrom(wp, CurrentSettings(), entries[i].val)];
        if IsSet(a, "data") {
          AddRow(wp, ArrOf(Get(a, "data")), ArrOf(Get(a, "options")));
        } else {
          AddRow(wp, a, []);
        }
        i := i + 1;
      }
      assert entries[..i] == entries;
    }

    /**
     * Ensures the actions column when an action is enabled (a key already
     * present keeps its place), then prints the table.
     */
    method Render(wp: Wp) returns (html: string)
      modifies table
      requires Valid()
      ensures Valid()
      ensures table.columns == if AnyEnabled(CurrentSettings()) then Set(old(table.columns), "actions", ActionsColumn()) else old(table.columns)
      ensures table.rows == old(table.rows) && table.options == old(table.options)
      ensures table.footer == old(table.footer) && table.emptyState == old(table.emptyState)
      ensures html == Serialize(wp, TableNode(table.options, table.columns, table.rows, table.footer, table.emptyState))
    {
      if Enabled(editAction) || Enabled(deleteAction) {
        table.AddColumn("actions", Str("Actions"), []);
      }
      html := table.Render(wp);
    }
  }

  /** The buttons printed one after another are the wrapper's children printed in order. */
  lemma ActionsJoined(wp: Wp, ns: seq<Node>, buttons: seq<string>)
    requires Prints(wp, buttons, ns) && |ns| <= 2
    ensures Implode("", buttons) == SerializeAll(wp, ns)
  {
    if |ns| == 1 {
      assert buttons[0] == Serialize(wp, ns[0]);
      SerializeAllSingle(wp, ns[0]);
    } else if |ns| == 2 {
      assert buttons[0] == Serialize(wp, ns[0]) && buttons[1] == Serialize(wp, ns[1]);
      JoinedTwo(wp, ns[0], ns[1], buttons[0], buttons[1]);
      assert ns == [ns[0], ns[1]] && buttons == [buttons[0], buttons[1]];
    }
  }

  lemma JoinedTwo(wp: Wp, n0: Node, n1: Node, b0: string, b1: string)
    requires b0 == Serialize(wp, n0) && b1 == Serialize(wp, n1)
    ensures Implode("", [b0, b1]) == SerializeAll(wp, [n0, n1])
  {
    assert SerializeAll(wp, [n0, n1]) == b0 + b1 by {
      SerializeAllSingle(wp, n0);
      assert [n0] + [n1] == [n0, n1];
      SerializeAllSnoc(wp, [n0], n1);
    }
    assert Implode("", [b0, b1]) == b0 + "" + b1 by {
      assert [b0] + [b1] == [b0, b1];
      JoinCons(b0, [b1], "");
    }
    EmptySeparator(b0, b1);
  }

  lemma EmptySeparator(a: string, b: string)
    ensures a + "" + b == a + b
  {
  }

}
