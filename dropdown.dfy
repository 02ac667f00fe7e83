/**
 * Dropdown menus (Mosaic.dropdown): the open class on each container, the
 * trigger's aria-expanded, the callbacks, item selection and arrow-key focus
 * movement; and initDropdowns, which attaches each declared container once.
 */
module DropdownWidget {
  import opened Strings
  import opened MosaicScript

  /**
   * The controller's options. closeOnSelect and closeOnOutside are
   * `options.x !== false`; the has* flags say whether a callback was given.
   */
  datatype Options = Options(closeOnSelect: bool, closeOnOutside: bool, hasOnOpen: bool, hasOnClose: bool, hasOnSelect: bool)

  /** The options from what the caller passed: None stands for a missing option. */
  function MakeOptions(closeOnSelect: Option<bool>, closeOnOutside: Option<bool>,
                       hasOnOpen: bool, hasOnClose: bool, hasOnSelect: bool): (o: Options)
    ensures o.closeOnSelect <==> closeOnSelect != Some(false)
    ensures o.closeOnOutside <==> closeOnOutside != Some(false)
  {
    Options(closeOnSelect != Some(false), closeOnOutside != Some(false), hasOnOpen, hasOnClose, hasOnSelect)
  }

  /**
   * A .mosaic-dropdown-item: its disabled property, whether it has the
   * mosaic-disabled class, its data-value ("" when absent) and its text.
   */
  datatype Item = Item(disabled: bool, classDisabled: bool, dataValue: string, text: string)

  /** A click on the item is ignored when it is disabled either way. */
  predicate Blocked(item: Item) {
    item.disabled || item.classDisabled
  }

  /** What onSelect receives: data-value when non-empty, otherwise the trimmed text. */
  function SelectValue(item: Item): string {
    if item.dataValue != "" then item.dataValue else Trim(item.text)
  }

  /** A callback call, with the container it belongs to. */
  datatype Call = OpenCall(c: nat) | CloseCall(c: nat) | SelectCall(c: nat, value: string, item: nat)

  /** document.activeElement: a container's trigger, an item of a container's menu, or something else. */
  datatype Focus = Elsewhere | OnTrigger(c: nat) | OnItem(c: nat, i: nat)

  /** Indices of the items `:not(:disabled)` matches, in document order; the mosaic-disabled class does not count. */
  function Enabled(items: seq<Item>): (r: seq<nat>)
    ensures forall k :: 0 <= k < |r| ==> r[k] < |items| && !items[r[k]].disabled
    decreases |items|
  {
    if |items| == 0 then []
    else Enabled(items[..|items| - 1]) + (if !items[|items| - 1].disabled then [|items| - 1] else [])
  }

  /** An item index is listed exactly when the item is not disabled, and the list ascends. */
  lemma {:induction false} EnabledMembers(items: seq<Item>)
    ensures forall i: nat :: i in Enabled(items) <==> i < |items| && !items[i].disabled
    ensures forall k, l :: 0 <= k < l < |Enabled(items)| ==> Enabled(items)[k] < Enabled(items)[l]
    decreases |items|
  {
    if |items| > 0 {
      var init := items[..|items| - 1];
      EnabledMembers(init);
      forall i: nat | i < |init| ensures items[i] == init[i] {}
    }
  }

  /** items[index + 1] || items[0]: the next position, wrapping from the last to the first. */
  function NextPos(k: int, n: nat): (r: nat)
    requires n > 0 && -1 <= k < n
    ensures r < n
  {
    if k + 1 < n then k + 1 else 0
  }

  /** items[index - 1] || items[items.length - 1]: the previous position, wrapping from the first to the last. */
  function PrevPos(k: int, n: nat): (r: nat)
    requires n > 0 && -1 <= k < n
    ensures r < n
  {
    if k - 1 >= 0 then k - 1 else n - 1
  }

  /**
   * ArrowDown from the last item goes to the first and ArrowUp from the first
   * to the last; from outside the list ArrowDown goes to the first and ArrowUp
   * to the last; the two moves undo each other.
   */
  lemma Wraparound(k: int, n: nat)
    requires n > 0 && -1 <= k < n
    ensures k == n - 1 ==> NextPos(k, n) == 0
    ensures k == 0 ==> PrevPos(k, n) == n - 1
    ensures k == -1 ==> NextPos(k, n) == 0 && PrevPos(k, n) == n - 1
    ensures 0 <= k < n - 1 ==> NextPos(k, n) == k + 1
    ensures 0 < k ==> PrevPos(k, n) == k - 1
    ensures 0 <= k ==> PrevPos(NextPos(k, n), n) == k && NextPos(PrevPos(k, n), n) == k
  {
  }

  /** The open classes after open() on container c: other open .mosaic-dropdown containers lose it. */
  function Opened(open: seq<bool>, styled: seq<bool>, c: nat): (r: seq<bool>)
    requires |styled| == |open| && c < |open|
    ensures |r| == |open|
  {
    seq(|open|, j requires 0 <= j < |open| => j == c || (open[j] && !styled[j]))
  }

  /**
   * After open(), the container is open and no other container with the
   * mosaic-dropdown class is; containers without that class keep their state.
   */
  lemma OpenExclusive(open: seq<bool>, styled: seq<bool>, c: nat)
    requires |styled| == |open| && c < |open|
    ensures Opened(open, styled, c)[c]
    ensures forall j :: 0 <= j < |open| && j != c && styled[j] ==> !Opened(open, styled, c)[j]
    ensures forall j :: 0 <= j < |open| && j != c && !styled[j] ==> Opened(open, styled, c)[j] == open[j]
  {
  }

  /** The value onSelect receives for an item: data-value first, else the text without surrounding white space. */
  lemma SelectValueRule(item: Item)
    ensures item.dataValue != "" ==> SelectValue(item) == item.dataValue
    ensures item.dataValue == "" ==> SelectValue(item) == Trim(item.text)
    ensures |SelectValue(item)| > 0 && item.dataValue == "" ==>
      !IsSpace(SelectValue(item)[0]) && !IsSpace(SelectValue(item)[|SelectValue(item)| - 1])
  {
    if item.dataValue == "" && |SelectValue(item)| > 0 {
      var t := TrimStart(item.text);
      assert SelectValue(item) == TrimEnd(t);
      assert TrimEnd(t)[0] == t[0];
    }
  }

  /**
   * The page: for each dropdown container in document order, whether it has
   * the mosaic-open class, whether it has the mosaic-dropdown class (which the
   * exclusivity sweep selects on), its trigger's aria-expanded ("" while
   * unset), whether it carries data-mosaic-dropdown and its
   * data-mosaic-dropdown-init flag; the focused element; the callbacks called
   * so far; and the containers initDropdowns attached a controller to.
   */
  class Page {
    var open: seq<bool>
    var styled: seq<bool>
    var expanded: seq<string>
    var declared: seq<bool>
    var initDone: seq<bool>
    var focus: Focus
    var calls: seq<Call>
    var attached: seq<nat>

    predicate Valid()
      reads this
    {
      |styled| == |open| && |expanded| == |open| && |declared| == |open| && |initDone| == |open|
    }

    constructor(open: seq<bool>, styled: seq<bool>, declared: seq<bool>, initDone: seq<bool>)
      requires |styled| == |open| && |declared| == |open| && |initDone| == |open|
      ensures Valid()
      ensures this.open == open && this.styled == styled && this.declared == declared && this.initDone == initDone
      ensures expanded == seq(|open|, j => "") && focus == Elsewhere && calls == [] && attached == []
    {
      this.open := open;
      this.styled := styled;
      this.declared := declared;
      this.initDone := initDone;
      expanded := seq(|open|, j => "");
      focus := Elsewhere;
      calls := [];
      attached := [];
    }

    /** Fields no controller method touches. */
    twostate predicate LayoutKept()
      reads this
    {
      styled == old(styled) && declared == old(declared) && initDone == old(initDone) && attached == old(attached)
    }

    /** The sweep in open(): every other open .mosaic-dropdown loses mosaic-open. */
    method CloseOthers(c: nat)
      requires Valid() && c < |open|
      modifies this
      ensures Valid() && LayoutKept() && expanded == old(expanded) && focus == old(focus) && calls == old(calls)
      ensures open == Opened(old(open), styled, c)[c := old(open)[c]]
    {
      ghost var open0 := open;
      var j := 0;
      while j < |open|
        invariant 0 <= j <= |open| && |open| == |open0| && |styled| == |open|
        invariant forall k :: 0 <= k < |open| ==> open[k] == if k < j && k != c then open0[k] && !styled[k] else open0[k]
        invariant Valid() && LayoutKept() && expanded == old(expanded) && focus == old(focus) && calls == old(calls)
      {
        if j != c && open[j] && styled[j] {
          open := open[j := false];
        }
        j := j + 1;
      }
    }

    /** initDropdowns: each declared container without the init flag gets a controller and the flag. */
    method InitDropdowns()
      requires Valid()
      modifies this
      ensures Valid() && open == old(open) && styled == old(styled) && expanded == old(expanded) && declared == old(declared)
      ensures focus == old(focus) && calls == old(calls)
      ensures attached == old(attached) + Pending(declared, old(initDone), |declared|)
      ensures initDone == MarkAll(old(initDone), declared)
    {
      ghost var done0 := initDone;
      var i := 0;
      while i < |declared|
        invariant 0 <= i <= |declared| && |initDone| == |done0| && |declared| == |done0|
        invariant initDone == MarkedUpTo(done0, declared, i)
        invariant attached == old(attached) + Pending(declared, done0, i)
        invariant open == old(open) && styled == old(styled) && expanded == old(expanded) && declared == old(declared)
        invariant focus == old(focus) && calls == old(calls)
      {
        if declared[i] && !initDone[i] {
          attached := attached + [i];
          initDone := initDone[i := true];
        }
        i := i + 1;
      }
    }
  }

  /** A second initDropdowns attaches nothing: every container is initialised at most once. */
  lemma InitDropdownsOnce(declared: seq<bool>, done: seq<bool>)
    requires |declared| == |done|
    ensures Pending(declared, MarkAll(done, declared), |declared|) == []
    ensures MarkAll(MarkAll(done, declared), declared) == MarkAll(done, declared)
  {
    NothingPending(declared, MarkAll(done, declared), |declared|);
  }

  /** A controller returned by Mosaic.dropdown for container `at` of the page. */
  class Dropdown {
    const page: Page
    const at: nat
    const items: seq<Item>
    const options: Options

    predicate Valid()
      reads this, page
    {
      page.Valid() && at < |page.open|
    }

    constructor(page: Page, at: nat, items: seq<Item>, options: Options)
      requires page.Valid() && at < |page.open|
      ensures Valid() && this.page == page && this.at == at && this.items == items && this.options == options
    {
      this.page := page;
      this.at := at;
      this.items := items;
      this.options := options;
    }

    /** isOpen: the container has mosaic-open. */
    predicate IsOpen()
      reads this, page
      requires Valid()
    {
      page.open[at]
    }

    /** open(): close the others, open this one, aria-expanded 'true', then onOpen. */
    method Open()
      requires Valid()
      modifies page
      ensures Valid() && page.LayoutKept() && page.focus == old(page.focus)
      ensures page.open == Opened(old(page.open), page.styled, at)
      ensures page.expanded == old(page.expanded)[at := "true"]
      ensures page.calls == old(page.calls) + (if options.hasOnOpen then [OpenCall(at)] else [])
    {
      page.CloseOthers(at);
      page.open := page.open[at := true];
      page.expanded := page.expanded[at := "true"];
      if options.hasOnOpen {
        page.calls := page.calls + [OpenCall(at)];
      }
    }

    /** close(): this container closed and aria-expanded 'false', then onClose; the others untouched. */
    method Close()
      requires Valid()
      modifies page
      ensures Valid() && page.LayoutKept() && page.focus == old(page.focus)
      ensures page.open == old(page.open)[at := false] && !IsOpen()
      ensures page.expanded == old(page.expanded)[at := "false"]
      ensures page.calls == old(page.calls) + (if options.hasOnClose then [CloseCall(at)] else [])
    {
      page.open := page.open[at := false];
      page.expanded := page.expanded[at := "false"];
      if options.hasOnClose {
        page.calls := page.calls + [CloseCall(at)];
      }
    }

    /** toggle() and a click on the trigger: close when open, open otherwise. */
    method Toggle()
      requires Valid()
      modifies page
      ensures Valid() && page.LayoutKept() && page.focus == old(page.focus)
      ensures IsOpen() == !old(IsOpen())
      ensures page.expanded == old(page.expanded)[at := if old(IsOpen()) then "false" else "true"]
      ensures old(IsOpen()) ==> page.open == old(page.open)[at := false]
      ensures !old(IsOpen()) ==> page.open == Opened(old(page.open), page.styled, at)
      ensures page.calls == old(page.calls) +
        if old(IsOpen()) then (if options.hasOnClose then [CloseCall(at)] else [])
        else (if options.hasOnOpen then [OpenCall(at)] else [])
    {
      if IsOpen() {
        Close();
      } else {
        Open();
      }
    }

    /**
     * A click on item i: nothing for a disabled item; otherwise onSelect with
     * its value, then close() unless closeOnSelect is off.
     */
    method ClickItem(i: nat)
      requires Valid() && i < |items|
      modifies page
      ensures Valid() && page.LayoutKept() && page.focus == old(page.focus)
      ensures Blocked(items[i]) ==>
        page.open == old(page.open) && page.expanded == old(page.expanded) && page.calls == old(page.calls)
      ensures !Blocked(items[i]) ==>
        var selected := old(page.calls) + (if options.hasOnSelect then [SelectCall(at, SelectValue(items[i]), i)] else []);
        if options.closeOnSelect then
          page.open == old(page.open)[at := false] && page.expanded == old(page.expanded)[at := "false"]
          && page.calls == selected + (if options.hasOnClose then [CloseCall(at)] else [])
        else
          page.open == old(page.open) && page.expanded == old(page.expanded) && page.calls == selected
    {
      if Blocked(items[i]) {
        return;
      }
      if options.hasOnSelect {
        page.calls := page.calls + [SelectCall(at, SelectValue(items[i]), i)];
      }
      if options.closeOnSelect {
        Close();
      }
    }

    /** A click anywhere on the document: outside an open container it closes, when closeOnOutside holds. */
    method ClickDocument(inside: bool)
      requires Valid()
      modifies page
      ensures Valid() && page.LayoutKept() && page.focus == old(page.focus)
      ensures options.closeOnOutside && !inside && old(IsOpen()) ==>
        page.open == old(page.open)[at := false] && page.expanded == old(page.expanded)[at := "false"]
        && page.calls == old(page.calls) + (if options.hasOnClose then [CloseCall(at)] else [])
      ensures !(options.closeOnOutside && !inside && old(IsOpen())) ==>
        page.open == old(page.open) && page.expanded == old(page.expanded) && page.calls == old(page.calls)
    {
      if options.closeOnOutside && !inside && IsOpen() {
        Close();
      }
    }

    /** Escape on the document closes an open dropdown and focuses its trigger. */
    method DocumentKey(key: string)
      requires Valid()
      modifies page
      ensures Valid() && page.LayoutKept()
      ensures key == "Escape" && old(IsOpen()) ==>
        page.open == old(page.open)[at := false] && page.expanded == old(page.expanded)[at := "false"]
        && page.calls == old(page.calls) + (if options.hasOnClose then [CloseCall(at)] else [])
        && page.focus == OnTrigger(at)
      ensures !(key == "Escape" && old(IsOpen())) ==>
        page.open == old(page.open) && page.expanded == old(page.expanded) && page.calls == old(page.calls)
        && page.focus == old(page.focus)
    {
      if key == "Escape" && IsOpen() {
        Close();
        page.focus := OnTrigger(at);
      }
    }

    /** ArrowDown, Enter or Space on the trigger opens the menu and focuses its first enabled item. */
    method TriggerKey(key: string)
      requires Valid()
      modifies page
      ensures Valid() && page.LayoutKept()
      ensures key in {"ArrowDown", "Enter", " "} ==>
        page.open == Opened(old(page.open), page.styled, at) && page.expanded == old(page.expanded)[at := "true"]
        && page.calls == old(page.calls) + (if options.hasOnOpen then [OpenCall(at)] else [])
        && page.focus == if |Enabled(items)| > 0 then OnItem(at, Enabled(items)[0]) else old(page.focus)
      ensures key !in {"ArrowDown", "Enter", " "} ==>
        page.open == old(page.open) && page.expanded == old(page.expanded) && page.calls == old(page.calls)
        && page.focus == old(page.focus)
    {
      if key == "ArrowDown" || key == "Enter" || key == " " {
        Open();
        var enabled := Enabled(items);
        if |enabled| > 0 {
          page.focus := OnItem(at, enabled[0]);
        }
      }
    }

    /** Position of the focused element among the enabled items, -1 when it is not one of them. */
    function FocusPos(): (k: int)
      reads this, page
      ensures -1 <= k < |Enabled(items)|
      ensures k >= 0 ==> page.focus == OnItem(at, Enabled(items)[k])
    {
      if page.focus.OnItem? && page.focus.c == at then IndexOf(Enabled(items), page.focus.i) else -1
    }

    /**
     * ArrowDown or ArrowUp in the menu moves the focus among the enabled items,
     * wrapping round; with no enabled item the handler throws before any change.
     */
    method MenuKey(key: string)
      requires Valid()
      modifies page
      ensures Valid() && page.LayoutKept()
      ensures page.open == old(page.open) && page.expanded == old(page.expanded) && page.calls == old(page.calls)
      ensures var enabled := Enabled(items);
        if |enabled| > 0 && key == "ArrowDown" then page.focus == OnItem(at, enabled[NextPos(old(FocusPos()), |enabled|)])
        else if |enabled| > 0 && key == "ArrowUp" then page.focus == OnItem(at, enabled[PrevPos(old(FocusPos()), |enabled|)])
        else page.focus == old(page.focus)
    {
      var enabled := Enabled(items);
      var index := FocusPos();
      if |enabled| > 0 {
        if key == "ArrowDown" {
          page.focus := OnItem(at, enabled[NextPos(index, |enabled|)]);
        } else if key == "ArrowUp" {
          page.focus := OnItem(at, enabled[PrevPos(index, |enabled|)]);
        }
      }
    }
  }

  /**
   * Mosaic.dropdown: null when the selector finds no container or the
   * container lacks a trigger or a menu; otherwise a controller, with the page
   * left as it was.
   */
  method Attach(page: Page, found: bool, at: nat, hasTrigger: bool, hasMenu: bool, items: seq<Item>, options: Options)
    returns (d: Dropdown?)
    requires page.Valid() && at < |page.open|
    ensures d == null <==> !found || !hasTrigger || !hasMenu
    ensures d != null ==> fresh(d) && d.Valid() && d.page == page && d.at == at && d.items == items && d.options == options
  {
    if !found || !hasTrigger || !hasMenu {
      return null;
    }
    d := new Dropdown(page, at, items, options);
  }
}
