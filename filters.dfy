/**
 * Category filtering (MosaicFilter) and text search (MosaicSearch) over a
 * fixed list of page items. Each item carries a hidden flag (the hidden
 * class); filter and search rewrite every flag in one pass and count the
 * items left visible.
 */
module Filters {
  import opened Strings

  /** A filterable element: its data-filter and data-search attributes (None when absent) and its text content. */
  datatype Item = Item(filterAttr: Option<string>, searchAttr: Option<string>, text: string)

  /** What onFilter / onSearch receive and what the mosaic:filter / mosaic:search event carries. */
  datatype Report = Report(term: string, visibleCount: nat, totalCount: nat)

  /** The item's filter tokens: its data-filter text split on commas, each piece trimmed. */
  function Tokens(item: Item): seq<string> {
    TrimAll(Split(if item.filterAttr.Some? then item.filterAttr.value else "", ','))
  }

  /** The item stays visible under filter value v. */
  predicate Shows(v: string, item: Item) {
    v == "all" || v in Tokens(item)
  }

  /** The number of items filter shows. */
  function CountShown(v: string, items: seq<Item>): (n: nat)
    ensures n <= |items|
  {
    if items == [] then 0
    else CountShown(v, items[..|items| - 1]) + (if Shows(v, items[|items| - 1]) then 1 else 0)
  }

  /** The items whose hidden flag equals `want`, in page order (Array.prototype.filter). */
  function Select(items: seq<Item>, hidden: seq<bool>, want: bool): seq<Item>
    requires |hidden| == |items|
  {
    if items == [] then []
    else
      var init := Select(items[..|items| - 1], hidden[..|items| - 1], want);
      if hidden[|items| - 1] == want then init + [items[|items| - 1]] else init
  }

  /** Visible and hidden items together are exactly the items. */
  lemma {:induction false} SelectPartition(items: seq<Item>, hidden: seq<bool>)
    requires |hidden| == |items|
    ensures multiset(Select(items, hidden, false)) + multiset(Select(items, hidden, true)) == multiset(items)
    ensures |Select(items, hidden, false)| + |Select(items, hidden, true)| == |items|
    decreases |items|
  {
    if items != [] {
      var n := |items|;
      SelectPartition(items[..n - 1], hidden[..n - 1]);
      assert items == items[..n - 1] + [items[n - 1]];
    }
  }

  /** When every flag is set from a predicate, the number of visible items is the number satisfying it. */
  lemma {:induction false} SelectCountShown(v: string, items: seq<Item>, hidden: seq<bool>)
    requires |hidden| == |items|
    requires forall i :: 0 <= i < |items| ==> hidden[i] == !Shows(v, items[i])
    ensures |Select(items, hidden, false)| == CountShown(v, items)
    decreases |items|
  {
    if items != [] {
      var n := |items|;
      SelectCountShown(v, items[..n - 1], hidden[..n - 1]);
    }
  }

  /** Filter value 'all' shows every item. */
  lemma {:induction false} CountShownAll(items: seq<Item>)
    ensures CountShown("all", items) == |items|
    decreases |items|
  {
    if items != [] {
      CountShownAll(items[..|items| - 1]);
    }
  }

  /** Index of the first button whose data-filter is exactly 'all' (Array.prototype.find). */
  function FindAll(buttons: seq<Option<string>>): (r: Option<nat>)
    ensures r.Some? ==> r.value < |buttons| && buttons[r.value] == Some("all")
    ensures r.Some? ==> forall j :: 0 <= j < r.value ==> buttons[j] != Some("all")
    ensures r.None? <==> Some("all") !in buttons
  {
    var i := IndexOf(buttons, Some("all"));
    if i == -1 then None else Some(i as nat)
  }

  /** The value a filter button applies: its data-filter, or 'all' when that is absent or empty. */
  function ButtonValue(b: Option<string>): string {
    if b.Some? && b.value != "" then b.value else "all"
  }

  class MosaicFilter {
    const items: seq<Item>
    const buttons: seq<Option<string>>   // data-filter of each button targeting this container
    var hidden: seq<bool>
    var active: seq<bool>                // the active class on each button
    var currentFilter: string
    var reports: seq<Report>

    ghost predicate Valid()
      reads this
    {
      |hidden| == |items| && |active| == |buttons|
    }

    /** The instance after init has found its container, items and buttons. */
    constructor(items: seq<Item>, initiallyHidden: seq<bool>, buttons: seq<Option<string>>, initiallyActive: seq<bool>)
      requires |initiallyHidden| == |items| && |initiallyActive| == |buttons|
      ensures Valid()
      ensures this.items == items && this.buttons == buttons
      ensures hidden == initiallyHidden && active == initiallyActive
      ensures currentFilter == "all" && reports == []
    {
      this.items := items;
      this.buttons := buttons;
      hidden := initiallyHidden;
      active := initiallyActive;
      currentFilter := "all";
      reports := [];
    }

    method Filter(v: string) returns (visibleCount: nat)
      requires Valid()
      modifies this
      ensures Valid() && currentFilter == v
      ensures forall i :: 0 <= i < |items| ==> hidden[i] == !Shows(v, items[i])
      ensures visibleCount == CountShown(v, items)
      ensures reports == old(reports) + [Report(v, visibleCount, |items|)]
      ensures active == old(active)
    {
      currentFilter := v;
      visibleCount := 0;
      var i := 0;
      while i < |items|
        invariant 0 <= i <= |items| && |hidden| == |items| && active == old(active)
        invariant forall j :: 0 <= j < i ==> hidden[j] == !Shows(v, items[j])
        invariant visibleCount == CountShown(v, items[..i])
        invariant reports == old(reports) && currentFilter == v
      {
        assert items[..i + 1][..i] == items[..i];
        if Shows(v, items[i]) {
          hidden := hidden[i := false];
          visibleCount := visibleCount + 1;
        } else {
          hidden := hidden[i := true];
        }
        i := i + 1;
      }
      assert items[..i] == items;
      reports := reports + [Report(v, visibleCount, |items|)];
    }

    /** updateButtons: clear the active class everywhere, then set it on the given button if there is one. */
    method UpdateButtons(activeButton: Option<nat>)
      requires Valid()
      modifies this
      ensures Valid()
      ensures forall j :: 0 <= j < |buttons| ==> active[j] == (activeButton == Some(j))
      ensures hidden == old(hidden) && currentFilter == old(currentFilter) && reports == old(reports)
    {
      var j := 0;
      while j < |active|
        invariant 0 <= j <= |active| && |active| == |buttons|
        invariant forall k :: 0 <= k < j ==> !active[k]
        invariant hidden == old(hidden) && currentFilter == old(currentFilter) && reports == old(reports)
      {
        active := active[j := false];
        j := j + 1;
      }
      if activeButton.Some? && activeButton.value < |active| {
        active := active[activeButton.value := true];
      }
    }

    /** A click on filter button j. */
    method ClickButton(j: nat)
      requires Valid() && j < |buttons|
      modifies this
      ensures Valid() && currentFilter == ButtonValue(buttons[j])
      ensures forall i :: 0 <= i < |items| ==> hidden[i] == !Shows(ButtonValue(buttons[j]), items[i])
      ensures forall k :: 0 <= k < |buttons| ==> active[k] == (k == j)
      ensures reports == old(reports) + [Report(currentFilter, CountShown(currentFilter, items), |items|)]
    {
      var _ := Filter(ButtonValue(buttons[j]));
      UpdateButtons(Some(j));
    }

    method Reset()
      requires Valid()
      modifies this
      ensures Valid() && currentFilter == "all"
      ensures forall i :: 0 <= i < |items| ==> !hidden[i]
      ensures forall k :: 0 <= k < |buttons| ==> active[k] == (FindAll(buttons) == Some(k))
      ensures reports == old(reports) + [Report("all", |items|, |items|)]
    {
      var _ := Filter("all");
      CountShownAll(items);
      UpdateButtons(FindAll(buttons));
    }

    method GetVisibleItems() returns (visible: seq<Item>)
      requires Valid()
      ensures visible == Select(items, hidden, false)
    {
      visible := Select(items, hidden, false);
    }

    method GetHiddenItems() returns (hiddenItems: seq<Item>)
      requires Valid()
      ensures hiddenItems == Select(items, hidden, true)
    {
      hiddenItems := Select(items, hidden, true);
    }
  }

  /** After filter(v), the visible items are as many as filter returned, and visible and hidden items partition the list. */
  lemma FilterPartition(v: string, items: seq<Item>, hidden: seq<bool>)
    requires |hidden| == |items|
    requires forall i :: 0 <= i < |items| ==> hidden[i] == !Shows(v, items[i])
    ensures |Select(items, hidden, false)| == CountShown(v, items)
    ensures |Select(items, hidden, true)| == |items| - CountShown(v, items)
    ensures multiset(Select(items, hidden, false)) + multiset(Select(items, hidden, true)) == multiset(items)
  {
    SelectCountShown(v, items, hidden);
    SelectPartition(items, hidden);
  }

  // ---------------------------------------------------------------------------
  // MosaicSearch
  // ---------------------------------------------------------------------------

  /** `(item.getAttribute(searchAttr) || item.textContent).toLowerCase()` */
  function SearchText(item: Item): string {
    Lower(if item.searchAttr.Some? && item.searchAttr.value != "" then item.searchAttr.value else item.text)
  }

  /** `query.toLowerCase().trim()` */
  function SearchTerm(query: string): string {
    Trim(Lower(query))
  }

  /** The item stays visible for the search term. */
  predicate Matches(minChars: int, term: string, item: Item) {
    |term| < minChars || Contains(SearchText(item), term)
  }

  function CountMatches(minChars: int, term: string, items: seq<Item>): (n: nat)
    ensures n <= |items|
  {
    if items == [] then 0
    else CountMatches(minChars, term, items[..|items| - 1]) + (if Matches(minChars, term, items[|items| - 1]) then 1 else 0)
  }

  lemma {:induction false} CountMatchesAll(minChars: int, term: string, items: seq<Item>)
    requires forall i :: 0 <= i < |items| ==> Matches(minChars, term, items[i])
    ensures CountMatches(minChars, term, items) == |items|
    decreases |items|
  {
    if items != [] {
      CountMatchesAll(minChars, term, items[..|items| - 1]);
    }
  }

  class MosaicSearch {
    const items: seq<Item>
    const minChars: int
    var hidden: seq<bool>
    var input: string
    var reports: seq<Report>

    ghost predicate Valid()
      reads this
    {
      |hidden| == |items|
    }

    /** The instance after init has found its input and container. */
    constructor(items: seq<Item>, initiallyHidden: seq<bool>, minChars: int)
      requires |initiallyHidden| == |items|
      ensures Valid() && this.items == items && this.minChars == minChars
      ensures hidden == initiallyHidden && input == "" && reports == []
    {
      this.items := items;
      this.minChars := minChars;
      hidden := initiallyHidden;
      input := "";
      reports := [];
    }

    method Search(query: string) returns (visibleCount: nat)
      requires Valid()
      modifies this
      ensures Valid() && input == old(input)
      ensures forall i :: 0 <= i < |items| ==> hidden[i] == !Matches(minChars, SearchTerm(query), items[i])
      ensures visibleCount == CountMatches(minChars, SearchTerm(query), items)
      ensures reports == old(reports) + [Report(SearchTerm(query), visibleCount, |items|)]
    {
      var searchTerm := Trim(Lower(query));
      visibleCount := 0;
      if |searchTerm| < minChars {
        var i := 0;
        while i < |items|
          invariant 0 <= i <= |items| && |hidden| == |items|
          invariant forall j :: 0 <= j < i ==> !hidden[j]
          invariant input == old(input) && reports == old(reports)
        {
          hidden := hidden[i := false];
          i := i + 1;
        }
        CountMatchesAll(minChars, searchTerm, items);
        visibleCount := |items|;
      } else {
        var i := 0;
        while i < |items|
          invariant 0 <= i <= |items| && |hidden| == |items|
          invariant forall j :: 0 <= j < i ==> hidden[j] == !Matches(minChars, searchTerm, items[j])
          invariant visibleCount == CountMatches(minChars, searchTerm, items[..i])
          invariant input == old(input) && reports == old(reports)
        {
          assert items[..i + 1][..i] == items[..i];
          var matches := Contains(SearchText(items[i]), searchTerm);
          if matches {
            hidden := hidden[i := false];
            visibleCount := visibleCount + 1;
          } else {
            hidden := hidden[i := true];
          }
          i := i + 1;
        }
        assert items[..i] == items;
      }
      reports := reports + [Report(searchTerm, visibleCount, |items|)];
    }

    /** The debounced `input` handler once its delay has passed. */
    method OnInputElapsed() returns (visibleCount: nat)
      requires Valid()
      modifies this
      ensures Valid() && input == old(input)
      ensures forall i :: 0 <= i < |items| ==> hidden[i] == !Matches(minChars, SearchTerm(input), items[i])
      ensures visibleCount == CountMatches(minChars, SearchTerm(input), items)
      ensures reports == old(reports) + [Report(SearchTerm(input), visibleCount, |items|)]
    {
      visibleCount := Search(input);
    }

    /** clear (also bound to Escape): empty the input and search for ''. */
    method Clear() returns (visibleCount: nat)
      requires Valid()
      modifies this
      ensures Valid() && input == ""
      ensures forall i :: 0 <= i < |items| ==> !hidden[i]
      ensures visibleCount == |items|
      ensures reports == old(reports) + [Report("", |items|, |items|)]
    {
      input := "";
      visibleCount := Search("");
      ClearShowsAll(minChars, items);
    }

    method GetValue() returns (value: string)
      ensures value == input
    {
      value := input;
    }
  }

  /**
   * Searching for the empty text shows everything whatever minChars is: below
   * minChars by the length rule, otherwise because every text contains ''.
   */
  lemma ClearShowsAll(minChars: int, items: seq<Item>)
    ensures SearchTerm("") == ""
    ensures forall i :: 0 <= i < |items| ==> Matches(minChars, "", items[i])
    ensures CountMatches(minChars, "", items) == |items|
  {
    forall i | 0 <= i < |items|
      ensures Matches(minChars, "", items[i])
    {
      EveryStringContainsEmpty(SearchText(items[i]));
    }
    CountMatchesAll(minChars, "", items);
  }

  /** A term shorter than minChars shows every item. */
  lemma ShortTermShowsAll(minChars: int, query: string, items: seq<Item>)
    requires |SearchTerm(query)| < minChars
    ensures CountMatches(minChars, SearchTerm(query), items) == |items|
  {
    CountMatchesAll(minChars, SearchTerm(query), items);
  }

  /** A filter value matches an item exactly when a trimmed token equals it; 'all' matches every item. */
  lemma ShowsTokens(v: string, item: Item)
    ensures Shows(v, item) <==> v == "all" || exists i :: 0 <= i < |Tokens(item)| && Tokens(item)[i] == v
    ensures v != "all" && item.filterAttr.Some? && ',' !in item.filterAttr.value ==>
      (Shows(v, item) <==> v == Trim(item.filterAttr.value))
  {
    if item.filterAttr.Some? && ',' !in item.filterAttr.value {
      SplitNoSep(item.filterAttr.value, ',');
      assert Tokens(item) == [Trim(item.filterAttr.value)];
    }
  }
}
