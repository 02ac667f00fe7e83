/**
 * The tag editor (Mosaic.tagEditor). An editor keeps an ordered list of tags,
 * a list of suggestions and, while its suggestion dropdown is open, the
 * filtered suggestions and a highlighted index. Every change to the tags is
 * followed by a render that rewrites the pills and the hidden form field.
 *
 * The pure part below (Model and the transition functions) is the
 * specification; class Editor holds the same state in fields and its methods
 * follow the script statement by statement.
 */
module TagEditor {
  import opened Strings

  /** A numeric option: Infinity (the default) or NaN compares false with every count, so both are Unbounded. */
  datatype Limit = Unbounded | AtMost(n: int)

  predicate Exceeds(len: int, l: Limit) {
    l.AtMost? && len > l.n
  }

  predicate Reached(count: int, l: Limit) {
    l.AtMost? && count >= l.n
  }

  /**
   * The merged options `{...defaults, ...options}`. A callback the caller did
   * not give is None (or false for the notification callbacks). onBeforeAdd
   * returns false exactly when the script's hook returns `false`.
   */
  datatype Config = Config(
    tags: seq<string>,
    suggestions: seq<string>,
    placeholder: string,
    maxTags: Limit,
    maxLength: Limit,
    allowDuplicates: bool,
    allowFreeText: bool,
    trimValue: bool,
    confirmKeys: seq<string>,
    variant: string,
    readOnly: bool,
    showAllOnFocus: bool,
    minChars: int,
    hasOnAdd: bool,
    hasOnRemove: bool,
    hasOnChange: bool,
    onBeforeAdd: Option<string -> bool>,
    validate: Option<string -> bool>,
    filterSuggestions: Option<(seq<string>, string, seq<string>) -> seq<string>>)

  function Defaults(): Config {
    Config([], [], "Add a tag...", Unbounded, Unbounded, false, true, true, ["Enter", ","],
           "primary", false, false, 1, false, false, false, None, None, None)
  }

  /** A call the editor makes to onAdd, onRemove or onChange. */
  datatype Note = OnAdd(tag: string) | OnRemove(tag: string) | OnChange(tags: seq<string>)

  /**
   * The editor's state. `input` is the text box (absent in read-only mode),
   * `open` the dropdown's open class, `items` the suggestion items last
   * rendered into the dropdown, `notes` the callback calls made so far.
   */
  datatype Model = Model(
    tags: seq<string>,
    suggestions: seq<string>,
    variant: string,
    filtered: seq<string>,
    highlighted: int,
    input: string,
    open: bool,
    items: seq<string>,
    disabled: bool,
    notes: seq<Note>)

  function Initial(cfg: Config): Model {
    Model(cfg.tags, cfg.suggestions, cfg.variant, [], -1, "", false, [], false, [])
  }

  /**
   * The state facts the editor keeps between events. Closing the dropdown
   * leaves its rendered items in place, so the highlighted index is bounded by
   * the rendered items rather than by the filtered list.
   */
  predicate Consistent(cfg: Config, m: Model) {
    && (m.highlighted == -1 || 0 <= m.highlighted < |m.items|)
    && (m.open ==> m.items == m.filtered && m.filtered != [])
    && (!m.open ==> m.filtered == [])
    && (cfg.readOnly ==> !m.open && m.input == "" && m.items == [] && m.highlighted == -1)
  }

  lemma InitialConsistent(cfg: Config)
    ensures Consistent(cfg, Initial(cfg))
  {
  }

  // ---------------------------------------------------------------------------
  // addTag
  // ---------------------------------------------------------------------------

  function Normalize(cfg: Config, value: string): string {
    if cfg.trimValue then Trim(value) else value
  }

  /** Some suggestion equals the tag ignoring case. */
  predicate MatchesSome(suggestions: seq<string>, tag: string) {
    exists s :: s in suggestions && Lower(s) == Lower(tag)
  }

  datatype Verdict = Accept | Empty | ReadOnly | TooLong | AtCapacity | Duplicate | NotSuggested | Invalid | Vetoed

  /** The validation chain of addTag, applied to the normalised tag. */
  function Check(cfg: Config, tags: seq<string>, suggestions: seq<string>, tag: string): Verdict {
    if tag == "" then Empty
    else if cfg.readOnly then ReadOnly
    else if Exceeds(|tag|, cfg.maxLength) then TooLong
    else if Reached(|tags|, cfg.maxTags) then AtCapacity
    else if !cfg.allowDuplicates && tag in tags then Duplicate
    else if !cfg.allowFreeText && |suggestions| > 0 && !MatchesSome(suggestions, tag) then NotSuggested
    else if cfg.validate.Some? && !cfg.validate.value(tag) then Invalid
    else if cfg.onBeforeAdd.Some? && !cfg.onBeforeAdd.value(tag) then Vetoed
    else Accept
  }

  /** Each rejection reason stated on its own, independent of the others. */
  predicate Fails(cfg: Config, tags: seq<string>, suggestions: seq<string>, tag: string, v: Verdict) {
    match v
    case Accept => false
    case Empty => tag == ""
    case ReadOnly => cfg.readOnly
    case TooLong => Exceeds(|tag|, cfg.maxLength)
    case AtCapacity => Reached(|tags|, cfg.maxTags)
    case Duplicate => !cfg.allowDuplicates && tag in tags
    case NotSuggested => !cfg.allowFreeText && |suggestions| > 0 && !MatchesSome(suggestions, tag)
    case Invalid => cfg.validate.Some? && !cfg.validate.value(tag)
    case Vetoed => cfg.onBeforeAdd.Some? && !cfg.onBeforeAdd.value(tag)
  }

  /** The order in which addTag tries the conditions. */
  function Rank(v: Verdict): nat {
    match v
    case Empty => 0
    case ReadOnly => 1
    case TooLong => 2
    case AtCapacity => 3
    case Duplicate => 4
    case NotSuggested => 5
    case Invalid => 6
    case Vetoed => 7
    case Accept => 8
  }

  /**
   * The chain reports the first condition, in source order, that fails, and
   * accepts exactly when none fails.
   */
  lemma CheckIsFirstFailure(cfg: Config, tags: seq<string>, suggestions: seq<string>, tag: string)
    ensures var v := Check(cfg, tags, suggestions, tag);
      && (v == Accept <==> forall w :: !Fails(cfg, tags, suggestions, tag, w))
      && (v != Accept ==> Fails(cfg, tags, suggestions, tag, v))
      && (forall w :: Rank(w) < Rank(v) ==> !Fails(cfg, tags, suggestions, tag, w))
  {
    var v := Check(cfg, tags, suggestions, tag);
    forall w | Rank(w) < Rank(v)
      ensures !Fails(cfg, tags, suggestions, tag, w)
    {
    }
    if v == Accept {
      forall w
        ensures !Fails(cfg, tags, suggestions, tag, w)
      {
        assert w == Accept || Rank(w) < Rank(v);
      }
    } else {
      assert Fails(cfg, tags, suggestions, tag, v);
    }
  }

  datatype AddStep = AddStep(ok: bool, after: Model)

  /** The state after an accepted tag: pushed, rendered, input cleared, dropdown closed, callbacks told. */
  function Accepted(cfg: Config, m: Model, tag: string): Model {
    var tags := m.tags + [tag];
    Close(m.(tags := tags, input := "")).(notes := m.notes
      + (if cfg.hasOnAdd then [OnAdd(tag)] else [])
      + (if cfg.hasOnChange then [OnChange(tags)] else []))
  }

  function Add(cfg: Config, m: Model, value: string): AddStep {
    var tag := Normalize(cfg, value);
    if Check(cfg, m.tags, m.suggestions, tag) == Accept then AddStep(true, Accepted(cfg, m, tag))
    else AddStep(false, m)
  }

  predicate NoDuplicates(tags: seq<string>) {
    forall i, j :: 0 <= i < j < |tags| ==> tags[i] != tags[j]
  }

  /**
   * A rejected add changes nothing. An accepted add appends the normalised
   * value verbatim, never creates a duplicate when duplicates are disallowed,
   * never pushes the count past maxTags and respects maxLength and the
   * suggestion list.
   */
  lemma AddGuarantees(cfg: Config, m: Model, value: string)
    ensures var step := Add(cfg, m, value); var tag := Normalize(cfg, value);
      && (!step.ok ==> step.after == m)
      && (step.ok ==>
          && step.after.tags == m.tags + [tag]
          && tag != "" && !cfg.readOnly
          && !Exceeds(|tag|, cfg.maxLength)
          && (cfg.maxTags.AtMost? ==> |step.after.tags| <= cfg.maxTags.n)
          && (!cfg.allowDuplicates ==> (NoDuplicates(m.tags) ==> NoDuplicates(step.after.tags)))
          && (!cfg.allowFreeText && |m.suggestions| > 0 ==> MatchesSome(m.suggestions, tag)))
  {
    var step := Add(cfg, m, value);
    var tag := Normalize(cfg, value);
    if step.ok {
      CheckIsFirstFailure(cfg, m.tags, m.suggestions, tag);
      assert !Fails(cfg, m.tags, m.suggestions, tag, Duplicate);
      assert !Fails(cfg, m.tags, m.suggestions, tag, AtCapacity);
      var ts := step.after.tags;
      if !cfg.allowDuplicates && NoDuplicates(m.tags) {
        forall i, j | 0 <= i < j < |ts|
          ensures ts[i] != ts[j]
        {
          if j == |m.tags| {
            assert ts[i] == m.tags[i];
          }
        }
      }
    }
  }

  // ---------------------------------------------------------------------------
  // removeTag, removeLastTag
  // ---------------------------------------------------------------------------

  /** Array.prototype.splice(indexOf(x), 1): the first occurrence of x is taken out. */
  function RemoveFirst(tags: seq<string>, x: string): seq<string> {
    var i := IndexOf(tags, x);
    if i == -1 then tags else tags[..i] + tags[i + 1..]
  }

  /** The first occurrence, and only it, is removed; the others keep their order. */
  lemma RemoveFirstOccurrence(tags: seq<string>, x: string)
    ensures x !in tags ==> RemoveFirst(tags, x) == tags
    ensures x in tags ==>
      exists i :: 0 <= i < |tags| && tags[i] == x && x !in tags[..i] &&
        RemoveFirst(tags, x) == tags[..i] + tags[i + 1..]
    ensures x in tags ==> multiset(RemoveFirst(tags, x)) == multiset(tags) - multiset{x}
    ensures x in tags ==> |RemoveFirst(tags, x)| == |tags| - 1
  {
    if x in tags {
      var i := IndexOf(tags, x);
      assert tags == tags[..i] + [x] + tags[i + 1..];
      assert multiset(tags) == multiset(tags[..i]) + multiset{x} + multiset(tags[i + 1..]);
    }
  }

  datatype RemoveOutcome = Removed | Absent | RemovedThenThrew

  datatype RemoveStep = RemoveStep(outcome: RemoveOutcome, after: Model)

  /**
   * removeTag. In read-only mode there is no text box, so the final
   * `input.focus()` throws a TypeError after the tag is already gone.
   */
  function Remove(cfg: Config, m: Model, tag: string): RemoveStep {
    if tag !in m.tags then RemoveStep(Absent, m)
    else
      var tags := RemoveFirst(m.tags, tag);
      var notes := m.notes
        + (if cfg.hasOnRemove then [OnRemove(tag)] else [])
        + (if cfg.hasOnChange then [OnChange(tags)] else []);
      RemoveStep(if cfg.readOnly then RemovedThenThrew else Removed, m.(tags := tags, notes := notes))
  }

  /** removeLastTag as the script writes it: remove the first tag equal to the last one. */
  function RemoveLastAsWritten(cfg: Config, m: Model): Model {
    if |m.tags| > 0 then Remove(cfg, m, m.tags[|m.tags| - 1]).after else m
  }

  /** With duplicates present, Backspace takes out an earlier pill instead of the last one. */
  lemma RemoveLastAsWrittenDropsEarlierDuplicate()
    ensures var cfg := Defaults().(allowDuplicates := true);
      var m := Initial(cfg).(tags := ["a", "b", "a"]);
      RemoveLastAsWritten(cfg, m).tags == ["b", "a"]
  {
    var cfg := Defaults().(allowDuplicates := true);
    var m := Initial(cfg).(tags := ["a", "b", "a"]);
    assert IndexOf(m.tags, "a") == 0;
  }

  /** The last pill is removed (the behaviour Backspace is meant to have). */
  function RemoveLast(cfg: Config, m: Model): Model {
    if |m.tags| == 0 then m
    else
      var tag := m.tags[|m.tags| - 1];
      var tags := m.tags[..|m.tags| - 1];
      m.(tags := tags, notes := m.notes
        + (if cfg.hasOnRemove then [OnRemove(tag)] else [])
        + (if cfg.hasOnChange then [OnChange(tags)] else []))
  }

  /** Backspace drops exactly the last tag, and agrees with the script whenever tags are distinct. */
  lemma RemoveLastDropsLast(cfg: Config, m: Model)
    requires |m.tags| > 0
    ensures RemoveLast(cfg, m).tags + [m.tags[|m.tags| - 1]] == m.tags
    ensures NoDuplicates(m.tags) && !cfg.readOnly ==> RemoveLast(cfg, m) == RemoveLastAsWritten(cfg, m)
  {
    var n := |m.tags|;
    var last := m.tags[n - 1];
    assert m.tags[..n - 1] + [last] == m.tags;
    if NoDuplicates(m.tags) {
      assert last in m.tags;
      var i := IndexOf(m.tags, last);
      assert i == n - 1;
      assert m.tags[i + 1..] == [];
      assert RemoveFirst(m.tags, last) == m.tags[..n - 1];
    }
  }

  // ---------------------------------------------------------------------------
  // Suggestions
  // ---------------------------------------------------------------------------

  /** The default filter's test for one suggestion; q is the lower-cased query. */
  predicate Shown(cfg: Config, tags: seq<string>, q: string, showAll: bool, s: string) {
    (showAll || q == "" || Contains(Lower(s), q)) && (cfg.allowDuplicates || s !in tags)
  }

  /** Array.prototype.filter with the default test. */
  function DefaultFilter(cfg: Config, tags: seq<string>, q: string, showAll: bool, sugs: seq<string>): seq<string> {
    if sugs == [] then []
    else
      var init := DefaultFilter(cfg, tags, q, showAll, sugs[..|sugs| - 1]);
      var s := sugs[|sugs| - 1];
      if Shown(cfg, tags, q, showAll, s) then init + [s] else init
  }

  /** xs is obtained from ys by deleting elements. */
  ghost predicate SubsequenceOf<T>(xs: seq<T>, ys: seq<T>) {
    exists idx: seq<nat> ::
      |idx| == |xs| &&
      (forall k :: 0 <= k < |idx| ==> idx[k] < |ys| && xs[k] == ys[idx[k]]) &&
      (forall k, l :: 0 <= k < l < |idx| ==> idx[k] < idx[l])
  }

  /**
   * The default filter keeps exactly the suggestions that pass the test, in
   * their original order.
   */
  lemma {:induction false} DefaultFilterSpec(cfg: Config, tags: seq<string>, q: string, showAll: bool, sugs: seq<string>)
    ensures forall s :: s in DefaultFilter(cfg, tags, q, showAll, sugs) <==> s in sugs && Shown(cfg, tags, q, showAll, s)
    ensures SubsequenceOf(DefaultFilter(cfg, tags, q, showAll, sugs), sugs)
    decreases |sugs|
  {
    if sugs == [] {
      SubseqNone(sugs);
    } else {
      var init := sugs[..|sugs| - 1];
      var s := sugs[|sugs| - 1];
      assert sugs == init + [s];
      DefaultFilterSpec(cfg, tags, q, showAll, init);
      var f := DefaultFilter(cfg, tags, q, showAll, init);
      if Shown(cfg, tags, q, showAll, s) {
        SubseqKeep(f, init, s);
      } else {
        SubseqSkip(f, init, s);
      }
    }
  }

  lemma SubseqNone<T>(ys: seq<T>)
    ensures SubsequenceOf([], ys)
  {
    var idx: seq<nat> := [];
    var none: seq<T> := [];
    assert |idx| == |none|;
  }

  /** Keeping the appended element keeps a subsequence. */
  lemma SubseqKeep<T>(xs: seq<T>, ys: seq<T>, y: T)
    requires SubsequenceOf(xs, ys)
    ensures SubsequenceOf(xs + [y], ys + [y])
  {
    var idx: seq<nat> :| |idx| == |xs| &&
      (forall k :: 0 <= k < |idx| ==> idx[k] < |ys| && xs[k] == ys[idx[k]]) &&
      (forall k, l :: 0 <= k < l < |idx| ==> idx[k] < idx[l]);
    var idx' := idx + [|ys|];
    assert |idx'| == |xs + [y]|;
    assert forall k :: 0 <= k < |idx'| ==> idx'[k] < |ys + [y]| && (xs + [y])[k] == (ys + [y])[idx'[k]];
    assert forall k, l :: 0 <= k < l < |idx'| ==> idx'[k] < idx'[l];
  }

  /** Dropping the appended element keeps a subsequence. */
  lemma SubseqSkip<T>(xs: seq<T>, ys: seq<T>, y: T)
    requires SubsequenceOf(xs, ys)
    ensures SubsequenceOf(xs, ys + [y])
  {
    var idx: seq<nat> :| |idx| == |xs| &&
      (forall k :: 0 <= k < |idx| ==> idx[k] < |ys| && xs[k] == ys[idx[k]]) &&
      (forall k, l :: 0 <= k < l < |idx| ==> idx[k] < idx[l]);
    assert forall k :: 0 <= k < |idx| ==> idx[k] < |ys + [y]| && xs[k] == (ys + [y])[idx[k]];
  }

  /** The empty query and showAll both keep every suggestion that is not already a tag. */
  lemma DefaultFilterShowsAll(cfg: Config, tags: seq<string>, q: string, showAll: bool, sugs: seq<string>)
    requires showAll || q == ""
    requires cfg.allowDuplicates || forall s :: s in sugs ==> s !in tags
    ensures DefaultFilter(cfg, tags, q, showAll, sugs) == sugs
  {
    if sugs != [] {
      DefaultFilterShowsAll(cfg, tags, q, showAll, sugs[..|sugs| - 1]);
      assert sugs[..|sugs| - 1] + [sugs[|sugs| - 1]] == sugs;
    }
  }

  function Close(m: Model): Model {
    m.(open := false, highlighted := -1, filtered := [])
  }

  /** showSuggestions(query, showAll). No dropdown exists in read-only mode. */
  function Show(cfg: Config, m: Model, query: string, showAll: bool): Model {
    if cfg.readOnly || |m.suggestions| == 0 then m
    else
      var q := Lower(query);
      var f := if cfg.filterSuggestions.Some? then cfg.filterSuggestions.value(m.suggestions, q, m.tags)
               else DefaultFilter(cfg, m.tags, q, showAll, m.suggestions);
      if |f| == 0 then Close(m)
      else m.(filtered := f, highlighted := -1, items := f, open := true)
  }

  /** setHighlighted(i): only an index of a rendered item is taken. */
  function Highlight(cfg: Config, m: Model, i: int): Model {
    if cfg.readOnly then m
    else if 0 <= i < |m.items| then m.(highlighted := i)
    else m
  }

  function SelectHighlighted(cfg: Config, m: Model): AddStep {
    if 0 <= m.highlighted < |m.filtered| then AddStep(true, Add(cfg, m, m.filtered[m.highlighted]).after)
    else AddStep(false, m)
  }

  // ---------------------------------------------------------------------------
  // Event handlers (attached only in editable mode)
  // ---------------------------------------------------------------------------

  function Min(a: int, b: int): int { if a <= b then a else b }
  function Max(a: int, b: int): int { if a >= b then a else b }

  function KeyDown(cfg: Config, m: Model, key: string): Model {
    if cfg.readOnly then m
    else
      var value := m.input;
      if key in cfg.confirmKeys then
        if m.highlighted >= 0 then SelectHighlighted(cfg, m).after
        else if value != "" then Add(cfg, m, value).after
        else m
      else if key == "Backspace" && value == "" then RemoveLastAsWritten(cfg, m)
      else if key == "Escape" then Close(m)
      else if key == "ArrowDown" then
        if m.open then Highlight(cfg, m, Min(m.highlighted + 1, |m.filtered| - 1))
        else if cfg.showAllOnFocus || value != "" then Show(cfg, m, value, cfg.showAllOnFocus && value == "")
        else m
      else if key == "ArrowUp" then
        if m.open then Highlight(cfg, m, Max(m.highlighted - 1, 0)) else m
      else m
  }

  /** addTag applied to each value in turn. */
  function AddAll(cfg: Config, m: Model, values: seq<string>): Model {
    if values == [] then m
    else Add(cfg, AddAll(cfg, m, values[..|values| - 1]), values[|values| - 1]).after
  }

  lemma AddAllSnoc(cfg: Config, m: Model, values: seq<string>, i: nat)
    requires i < |values|
    ensures AddAll(cfg, m, values[..i + 1]) == Add(cfg, AddAll(cfg, m, values[..i]), values[i]).after
  {
    assert values[..i + 1][..i] == values[..i];
  }

  /** The `input` event after the browser has set the text box to `text`. */
  function Input(cfg: Config, m: Model, text: string): Model {
    if cfg.readOnly then m
    else
      var m0 := m.(input := text);
      if ',' in text then
        var parts := Split(text, ',');
        AddAll(cfg, m0, parts[..|parts| - 1]).(input := parts[|parts| - 1])
      else if |text| >= cfg.minChars then Show(cfg, m0, text, false)
      else if cfg.showAllOnFocus then Show(cfg, m0, "", true)
      else Close(m0)
  }

  /** The `paste` handler. Text without a comma is left to the browser, which then raises `input`. */
  function Paste(cfg: Config, m: Model, data: string): Model {
    if cfg.readOnly || ',' !in data then m
    else AddAll(cfg, m, Split(data, ','))
  }

  function Focus(cfg: Config, m: Model): Model {
    if !cfg.readOnly && cfg.showAllOnFocus && |m.suggestions| > 0 then Show(cfg, m, "", true) else m
  }

  /** Everything that can happen to an editor, for the invariant lemma. */
  datatype Event =
    | Key(key: string) | Typed(text: string) | Pasted(data: string) | Focused | BlurElapsed
    | ClickItem(index: nat) | HoverItem(index: nat) | ClickPillRemove(tag: string)
    | ApiAdd(tag: string) | ApiRemove(tag: string) | ApiRemoveAll | ApiSetTags(tags: seq<string>)
    | ApiSetSuggestions(suggestions: seq<string>) | ApiDisable | ApiEnable | ApiSetVariant(variant: string)
    | ApiShowSuggestions

  function SetTags(cfg: Config, m: Model, tags: seq<string>): Model {
    m.(tags := tags, notes := m.notes + (if cfg.hasOnChange then [OnChange(tags)] else []))
  }

  function Step(cfg: Config, m: Model, e: Event): Model {
    match e
    case Key(k) => KeyDown(cfg, m, k)
    case Typed(t) => Input(cfg, m, t)
    case Pasted(d) => Paste(cfg, m, d)
    case Focused => Focus(cfg, m)
    case BlurElapsed => if cfg.readOnly then m else Close(m)
    case ClickItem(i) => if !cfg.readOnly && i < |m.items| then Add(cfg, m, m.items[i]).after else m
    case HoverItem(i) => if !cfg.readOnly && i < |m.items| then Highlight(cfg, m, i) else m
    case ClickPillRemove(t) => if cfg.readOnly then m else Remove(cfg, m, t).after
    case ApiAdd(t) => Add(cfg, m, t).after
    case ApiRemove(t) => Remove(cfg, m, t).after
    case ApiRemoveAll => SetTags(cfg, m, [])
    case ApiSetTags(ts) => SetTags(cfg, m, ts)
    case ApiSetSuggestions(s) => m.(suggestions := s)
    case ApiDisable => m.(disabled := true)
    case ApiEnable => m.(disabled := false)
    case ApiSetVariant(v) => m.(variant := v)
    case ApiShowSuggestions => Show(cfg, m, "", true)
  }

  lemma AddConsistent(cfg: Config, m: Model, value: string)
    requires Consistent(cfg, m)
    ensures Consistent(cfg, Add(cfg, m, value).after)
  {
    AddGuarantees(cfg, m, value);
  }

  lemma {:induction false} AddAllConsistent(cfg: Config, m: Model, values: seq<string>)
    requires Consistent(cfg, m)
    ensures Consistent(cfg, AddAll(cfg, m, values))
    decreases |values|
  {
    if values != [] {
      AddAllConsistent(cfg, m, values[..|values| - 1]);
      AddConsistent(cfg, AddAll(cfg, m, values[..|values| - 1]), values[|values| - 1]);
    }
  }

  /**
   * Every event keeps the state facts: the highlighted index is -1 or an index
   * of the rendered items, an open dropdown shows exactly the non-empty
   * filtered list, a closed one has none, and a read-only editor never opens one.
   */
  lemma StepConsistent(cfg: Config, m: Model, e: Event)
    requires Consistent(cfg, m)
    ensures Consistent(cfg, Step(cfg, m, e))
  {
    match e
    case Key(k) => KeyDownConsistent(cfg, m, k);
    case Typed(t) => InputConsistent(cfg, m, t);
    case Pasted(d) =>
      if !cfg.readOnly && ',' in d {
        AddAllConsistent(cfg, m, Split(d, ','));
      }
    case ClickItem(i) =>
      if !cfg.readOnly && i < |m.items| {
        AddConsistent(cfg, m, m.items[i]);
      }
    case ApiAdd(t) => AddConsistent(cfg, m, t);
    case Focused => ShowConsistent(cfg, m, "", true);
    case ApiShowSuggestions => ShowConsistent(cfg, m, "", true);
    case _ =>
  }

  lemma ShowConsistent(cfg: Config, m: Model, query: string, showAll: bool)
    requires Consistent(cfg, m)
    ensures Consistent(cfg, Show(cfg, m, query, showAll))
  {
  }

  lemma KeyDownConsistent(cfg: Config, m: Model, key: string)
    requires Consistent(cfg, m)
    ensures Consistent(cfg, KeyDown(cfg, m, key))
  {
    if !cfg.readOnly {
      if key in cfg.confirmKeys {
        if m.highlighted >= 0 {
          if m.highlighted < |m.filtered| {
            AddConsistent(cfg, m, m.filtered[m.highlighted]);
          }
        } else {
          AddConsistent(cfg, m, m.input);
        }
      } else if key == "ArrowDown" && !m.open {
        ShowConsistent(cfg, m, m.input, cfg.showAllOnFocus && m.input == "");
      }
    }
  }

  lemma InputConsistent(cfg: Config, m: Model, text: string)
    requires Consistent(cfg, m)
    ensures Consistent(cfg, Input(cfg, m, text))
  {
    if !cfg.readOnly {
      var m0 := m.(input := text);
      if ',' in text {
        var parts := Split(text, ',');
        AddAllConsistent(cfg, m0, parts[..|parts| - 1]);
      } else {
        ShowConsistent(cfg, m0, text, false);
        ShowConsistent(cfg, m0, "", true);
      }
    }
  }

  /**
   * Arrow keys move the highlight with clamping and no wraparound, and a
   * confirm key commits the highlighted suggestion when there is one,
   * otherwise the typed text.
   */
  lemma KeyboardHighlight(cfg: Config, m: Model)
    requires Consistent(cfg, m) && !cfg.readOnly && m.open
    requires "ArrowDown" !in cfg.confirmKeys && "ArrowUp" !in cfg.confirmKeys
    ensures KeyDown(cfg, m, "ArrowDown").highlighted == Min(m.highlighted + 1, |m.filtered| - 1)
    ensures KeyDown(cfg, m, "ArrowUp").highlighted == Max(m.highlighted - 1, 0)
    ensures m.highlighted == |m.filtered| - 1 ==> KeyDown(cfg, m, "ArrowDown").highlighted == m.highlighted
    ensures m.highlighted <= 0 ==> KeyDown(cfg, m, "ArrowUp").highlighted == 0
  {
    assert "ArrowDown" != "Backspace" && "ArrowDown" != "Escape";
    assert "ArrowUp" != "Backspace" && "ArrowUp" != "Escape" && "ArrowUp" != "ArrowDown";
  }

  // ---------------------------------------------------------------------------
  // The hidden form field
  // ---------------------------------------------------------------------------

  /** The hidden field's value, `tags.join(',')`. */
  function HiddenValue(tags: seq<string>): string {
    Join(tags, ",")
  }

  /** The hidden field gives the tags back when no tag holds a comma. */
  lemma HiddenFieldEncodesTags(tags: seq<string>)
    requires |tags| > 0 && forall t :: t in tags ==> ',' !in t
    ensures Split(HiddenValue(tags), ',') == tags
  {
    SplitJoin(tags, ',');
  }

  // ---------------------------------------------------------------------------
  // Editor
  // ---------------------------------------------------------------------------

  class Editor {
    const cfg: Config
    const hiddenName: string
    var tags: seq<string>
    var suggestions: seq<string>
    var variant: string
    var filtered: seq<string>
    var highlighted: int
    var input: string
    var open: bool
    var items: seq<string>
    var disabled: bool
    var notes: seq<Note>
    // what renderTags last wrote into the page
    var pills: seq<string>
    var pillVariant: string
    var hidden: string
    var maxReached: bool

    function State(): Model
      reads this
    {
      Model(tags, suggestions, variant, filtered, highlighted, input, open, items, disabled, notes)
    }

    /** The page shows the current tags, and the dropdown state is consistent. */
    ghost predicate Valid()
      reads this
    {
      && Rendered()
      && Consistent(cfg, State())
    }

    ghost predicate Rendered()
      reads this
    {
      && pills == tags
      && pillVariant == variant
      && hidden == HiddenValue(tags)
      && (!cfg.readOnly ==> maxReached == Reached(|tags|, cfg.maxTags))
    }

    /** Mosaic.tagEditor(container, options): the initial tags are taken as given. */
    constructor(config: Config, dataName: string)
      ensures Valid()
      ensures cfg == config && State() == Initial(config)
      ensures hiddenName == if dataName != "" then dataName else "tags"
    {
      cfg := config;
      hiddenName := if dataName != "" then dataName else "tags";
      tags := config.tags;
      suggestions := config.suggestions;
      variant := config.variant;
      filtered := [];
      highlighted := -1;
      input := "";
      open := false;
      items := [];
      disabled := false;
      notes := [];
      pills := config.tags;
      pillVariant := config.variant;
      hidden := HiddenValue(config.tags);
      maxReached := Reached(|config.tags|, config.maxTags);
    }

    /** renderTags and updateHiddenInput. */
    method Render()
      modifies this
      ensures Rendered()
      ensures State() == old(State())
      ensures cfg.readOnly ==> maxReached == old(maxReached)
    {
      pills := tags;
      pillVariant := variant;
      if !cfg.readOnly {
        maxReached := Reached(|tags|, cfg.maxTags);
      }
      hidden := Join(tags, ",");
    }

    method AddTag(value: string) returns (ok: bool)
      requires Valid()
      modifies this
      ensures Valid()
      ensures ok == Add(cfg, old(State()), value).ok
      ensures State() == Add(cfg, old(State()), value).after
    {
      var tag := if cfg.trimValue then Trim(value) else value;
      ok := Passes(tag);
      if ok {
        Commit(tag);
      }
    }

    /** The checks of addTag, in source order; the first that fails rejects the tag. */
    method Passes(tag: string) returns (ok: bool)
      ensures ok == (Check(cfg, tags, suggestions, tag) == Accept)
    {
      if tag == "" {
        return false;
      }
      if cfg.readOnly {
        return false;
      }
      if Exceeds(|tag|, cfg.maxLength) {
        return false;
      }
      if Reached(|tags|, cfg.maxTags) {
        return false;
      }
      if !cfg.allowDuplicates && tag in tags {
        return false;
      }
      if !cfg.allowFreeText && |suggestions| > 0 {
        if !MatchesSome(suggestions, tag) {
          return false;
        }
      }
      if cfg.validate.Some? && !cfg.validate.value(tag) {
        return false;
      }
      if cfg.onBeforeAdd.Some? && !cfg.onBeforeAdd.value(tag) {
        return false;
      }
      ok := true;
    }

    /** The part of addTag after every check has passed. */
    method Commit(tag: string)
      requires Valid() && !cfg.readOnly
      modifies this
      ensures Valid()
      ensures State() == Accepted(cfg, old(State()), tag)
    {
      tags := tags + [tag];
      Render();
      input := "";
      CloseSuggestions();
      if cfg.hasOnAdd {
        notes := notes + [OnAdd(tag)];
      }
      if cfg.hasOnChange {
        notes := notes + [OnChange(tags)];
      }
    }

    method RemoveTag(tag: string) returns (outcome: RemoveOutcome)
      requires Valid()
      modifies this
      ensures Valid()
      ensures outcome == Remove(cfg, old(State()), tag).outcome
      ensures State() == Remove(cfg, old(State()), tag).after
    {
      var index := IndexOf(tags, tag);
      if index == -1 {
        return Absent;
      }
      tags := tags[..index] + tags[index + 1..];
      Render();
      if cfg.hasOnRemove {
        notes := notes + [OnRemove(tag)];
      }
      if cfg.hasOnChange {
        notes := notes + [OnChange(tags)];
      }
      outcome := if cfg.readOnly then RemovedThenThrew else Removed;
    }

    /** Backspace on an empty text box: removeTag with the last pill's value. */
    method RemoveLastTag()
      requires Valid()
      modifies this
      ensures Valid()
      ensures State() == RemoveLastAsWritten(cfg, old(State()))
    {
      if |tags| > 0 {
        var _ := RemoveTag(tags[|tags| - 1]);
      }
    }

    method ShowSuggestions(query: string, showAll: bool)
      requires Valid()
      modifies this
      ensures Valid()
      ensures State() == Show(cfg, old(State()), query, showAll)
    {
      if cfg.readOnly || |suggestions| == 0 {
        return;
      }
      var q := Lower(query);
      if cfg.filterSuggestions.Some? {
        filtered := cfg.filterSuggestions.value(suggestions, q, tags);
      } else {
        filtered := DefaultFilter(cfg, tags, q, showAll, suggestions);
      }
      if |filtered| == 0 {
        CloseSuggestions();
        return;
      }
      highlighted := -1;
      items := filtered;
      open := true;
    }

    method CloseSuggestions()
      modifies this
      ensures State() == Close(old(State()))
      ensures pills == old(pills) && pillVariant == old(pillVariant) && hidden == old(hidden) && maxReached == old(maxReached)
    {
      open := false;
      highlighted := -1;
      filtered := [];
    }

    method SetHighlighted(index: int)
      requires Valid()
      modifies this
      ensures Valid()
      ensures State() == Highlight(cfg, old(State()), index)
    {
      if cfg.readOnly {
        return;
      }
      if 0 <= index < |items| {
        highlighted := index;
      }
    }

    method SelectHighlightedItem() returns (selected: bool)
      requires Valid()
      modifies this
      ensures Valid()
      ensures selected == SelectHighlighted(cfg, old(State())).ok
      ensures State() == SelectHighlighted(cfg, old(State())).after
    {
      if 0 <= highlighted < |filtered| {
        var _ := AddTag(filtered[highlighted]);
        return true;
      }
      return false;
    }

    method OnKeyDown(key: string)
      requires Valid()
      modifies this
      ensures Valid()
      ensures State() == KeyDown(cfg, old(State()), key)
    {
      if cfg.readOnly {
        return;
      }
      var value := input;
      if key in cfg.confirmKeys {
        if highlighted >= 0 {
          var _ := SelectHighlightedItem();
        } else if value != "" {
          var _ := AddTag(value);
        }
      } else if key == "Backspace" && value == "" {
        RemoveLastTag();
      } else if key == "Escape" {
        CloseSuggestions();
      } else if key == "ArrowDown" {
        if open {
          SetHighlighted(Min(highlighted + 1, |filtered| - 1));
        } else if cfg.showAllOnFocus || value != "" {
          ShowSuggestions(value, cfg.showAllOnFocus && value == "");
        }
      } else if key == "ArrowUp" {
        if open {
          SetHighlighted(Max(highlighted - 1, 0));
        }
      }
    }

    /** Adds every value in order, as the forEach loops of the input and paste handlers do. */
    method AddEach(values: seq<string>)
      requires Valid()
      modifies this
      ensures Valid()
      ensures State() == AddAll(cfg, old(State()), values)
    {
      var i := 0;
      while i < |values|
        invariant 0 <= i <= |values|
        invariant Valid()
        invariant State() == AddAll(cfg, old(State()), values[..i])
      {
        AddAllSnoc(cfg, old(State()), values, i);
        var _ := AddTag(values[i]);
        i := i + 1;
      }
      assert values[..i] == values;
    }

    method OnInput(text: string)
      requires Valid()
      modifies this
      ensures Valid()
      ensures State() == Input(cfg, old(State()), text)
    {
      if cfg.readOnly {
        return;
      }
      input := text;
      if ',' in text {
        AddSegments(text);
        return;
      }
      if |text| >= cfg.minChars {
        ShowSuggestions(text, false);
      } else if cfg.showAllOnFocus {
        ShowSuggestions("", true);
      } else {
        CloseSuggestions();
      }
    }

    /** Typed text with a comma: every segment but the last is added, the last stays in the text box. */
    method AddSegments(text: string)
      requires Valid() && !cfg.readOnly
      modifies this
      ensures Valid()
      ensures var parts := Split(text, ',');
        State() == AddAll(cfg, old(State()), parts[..|parts| - 1]).(input := parts[|parts| - 1])
    {
      var parts := Split(text, ',');
      AddEach(parts[..|parts| - 1]);
      SetText(parts[|parts| - 1]);
    }

    /** Writes the text box's value and nothing else. */
    method SetText(text: string)
      requires Valid() && !cfg.readOnly
      modifies this
      ensures Valid() && State() == old(State()).(input := text)
    {
      input := text;
    }

    method OnPaste(data: string)
      requires Valid()
      modifies this
      ensures Valid()
      ensures State() == Paste(cfg, old(State()), data)
    {
      if cfg.readOnly {
        return;
      }
      if ',' in data {
        AddEach(Split(data, ','));
      }
    }

    method OnFocus()
      requires Valid()
      modifies this
      ensures Valid()
      ensures State() == Focus(cfg, old(State()))
    {
      if !cfg.readOnly && cfg.showAllOnFocus && |suggestions| > 0 {
        ShowSuggestions("", true);
      }
    }

    // --- public api -----------------------------------------------------------

    method RemoveAll()
      requires Valid()
      modifies this
      ensures Valid()
      ensures State() == SetTags(cfg, old(State()), [])
    {
      tags := [];
      Render();
      if cfg.hasOnChange {
        notes := notes + [OnChange(tags)];
      }
    }

    method GetTags() returns (copy: seq<string>)
      ensures copy == tags
    {
      copy := tags;
    }

    method SetTagList(newTags: seq<string>)
      requires Valid()
      modifies this
      ensures Valid()
      ensures State() == SetTags(cfg, old(State()), newTags)
    {
      tags := newTags;
      Render();
      if cfg.hasOnChange {
        notes := notes + [OnChange(tags)];
      }
    }

    method HasTag(tag: string) returns (present: bool)
      ensures present <==> tag in tags
    {
      present := tag in tags;
    }

    method SetSuggestions(list: seq<string>)
      requires Valid()
      modifies this
      ensures Valid()
      ensures State() == old(State()).(suggestions := list)
    {
      suggestions := list;
    }

    method Disable()
      requires Valid()
      modifies this
      ensures Valid()
      ensures State() == old(State()).(disabled := true)
    {
      disabled := true;
    }

    method Enable()
      requires Valid()
      modifies this
      ensures Valid()
      ensures State() == old(State()).(disabled := false)
    {
      disabled := false;
    }

    method SetVariant(v: string)
      requires Valid()
      modifies this
      ensures Valid()
      ensures State() == old(State()).(variant := v)
    {
      variant := v;
      Render();
    }

    method IsReadOnly() returns (r: bool)
      ensures r == cfg.readOnly
    {
      r := cfg.readOnly;
    }

    method GetSuggestions() returns (copy: seq<string>)
      ensures copy == suggestions
    {
      copy := suggestions;
    }
  }

  // ---------------------------------------------------------------------------
  // Mosaic.initTagEditors
  // ---------------------------------------------------------------------------

  /** The data-* attributes of a container; None is an absent attribute. */
  datatype Dataset = Dataset(
    tags: Option<string>, suggestions: Option<string>, placeholder: Option<string>,
    maxTags: Option<string>, maxLength: Option<string>, variant: Option<string>,
    allowDuplicates: Option<string>, readOnly: Option<string>, showAllOnFocus: Option<string>,
    allowFreeText: Option<string>)

  /** A data attribute that is present and not the empty string. */
  predicate Given(a: Option<string>) {
    a.Some? && a.value != ""
  }

  function NonEmpty(xs: seq<string>): (r: seq<string>)
    ensures forall s :: s in r <==> s in xs && s != ""
  {
    if xs == [] then [] else (if xs[0] != "" then [xs[0]] else []) + NonEmpty(xs[1..])
  }

  function ParseLimit(s: string): Limit {
    match ParseInt(s)
    case None => Unbounded
    case Some(n) => AtMost(n)
  }

  function DatasetTagList(a: Option<string>): seq<string> {
    if Given(a) then NonEmpty(TrimAll(Split(a.value, ','))) else []
  }

  function DatasetSuggestionList(a: Option<string>): seq<string> {
    if Given(a) then TrimAll(Split(a.value, ',')) else []
  }

  function DatasetLimit(a: Option<string>): Limit {
    if Given(a) then ParseLimit(a.value) else Unbounded
  }

  function DatasetText(a: Option<string>, default: string): string {
    if Given(a) then a.value else default
  }

  /** The options initTagEditors reads from data-* attributes, over the defaults. */
  function DatasetConfig(d: Dataset): Config {
    Defaults().(
      tags := DatasetTagList(d.tags),
      suggestions := DatasetSuggestionList(d.suggestions),
      placeholder := DatasetText(d.placeholder, Defaults().placeholder),
      maxTags := DatasetLimit(d.maxTags),
      maxLength := DatasetLimit(d.maxLength),
      variant := DatasetText(d.variant, Defaults().variant),
      allowDuplicates := d.allowDuplicates == Some("true"),
      readOnly := d.readOnly == Some("true"),
      showAllOnFocus := d.showAllOnFocus == Some("true"),
      allowFreeText := d.allowFreeText != Some("false"))
  }

  /** Initial tags from data-tags are trimmed, and empty pieces are dropped. */
  lemma DatasetTags(d: Dataset)
    requires Given(d.tags)
    ensures forall t :: t in DatasetConfig(d).tags ==> t != "" && t == Trim(t)
  {
    var parts := TrimAll(Split(d.tags.value, ','));
    assert DatasetConfig(d).tags == DatasetTagList(d.tags) == NonEmpty(parts);
    forall t | t in NonEmpty(parts)
      ensures t == Trim(t)
    {
      var i :| 0 <= i < |parts| && parts[i] == t;
      TrimIdempotent(Split(d.tags.value, ',')[i]);
    }
  }

  /** Suggestions from data-suggestions are trimmed, but empty pieces are kept. */
  lemma DatasetSuggestions(d: Dataset)
    requires Given(d.suggestions)
    ensures |DatasetConfig(d).suggestions| == |Split(d.suggestions.value, ',')|
  {
  }

  /** A limit written as an integer is read back exactly; text without leading digits leaves it unbounded. */
  lemma DatasetLimits(d: Dataset, n: int)
    ensures d.maxTags == Some(IntToString(n)) ==> DatasetConfig(d).maxTags == AtMost(n)
    ensures d.maxLength == Some(IntToString(n)) ==> DatasetConfig(d).maxLength == AtMost(n)
    ensures Given(d.maxTags) && ParseInt(d.maxTags.value).None? ==> DatasetConfig(d).maxTags == Unbounded
  {
    ParseIntIntToString(n);
    assert DatasetConfig(d).maxTags == DatasetLimit(d.maxTags);
    assert DatasetConfig(d).maxLength == DatasetLimit(d.maxLength);
  }

  /** The boolean flags flip only on the exact words 'true', or 'false' for allowFreeText. */
  lemma DatasetFlags(d: Dataset)
    ensures DatasetConfig(d).allowDuplicates <==> d.allowDuplicates == Some("true")
    ensures DatasetConfig(d).readOnly <==> d.readOnly == Some("true")
    ensures DatasetConfig(d).showAllOnFocus <==> d.showAllOnFocus == Some("true")
    ensures DatasetConfig(d).allowFreeText <==> d.allowFreeText != Some("false")
  {
  }

  /** A container of the page that carries data-mosaic-tags. */
  class Page {
    var data: seq<Dataset>
    var mounted: seq<bool>           // container.mosaicTagEditor is set
    var configs: seq<Option<Config>> // the options an editor was built with

    ghost predicate Valid()
      reads this
    {
      |mounted| == |data| && |configs| == |data| &&
      forall i :: 0 <= i < |data| ==> (mounted[i] <==> configs[i].Some?)
    }

    /** Mosaic.initTagEditors: every container without an editor gets one; the others are left alone. */
    method InitTagEditors()
      requires Valid()
      modifies this
      ensures Valid() && data == old(data)
      ensures forall i :: 0 <= i < |data| ==> mounted[i]
      ensures forall i :: 0 <= i < |data| ==>
        configs[i] == if old(mounted[i]) then old(configs[i]) else Some(DatasetConfig(data[i]))
    {
      var i := 0;
      while i < |data|
        invariant 0 <= i <= |data|
        invariant Valid() && data == old(data)
        invariant forall j :: 0 <= j < i ==> mounted[j]
        invariant forall j :: 0 <= j < |data| ==>
          configs[j] == if j < i && !old(mounted[j]) then Some(DatasetConfig(data[j])) else old(configs[j])
        invariant forall j :: i <= j < |data| ==> mounted[j] == old(mounted[j])
      {
        if !mounted[i] {
          configs := configs[i := Some(DatasetConfig(data[i]))];
          mounted := mounted[i := true];
        }
        i := i + 1;
      }
    }
  }

  // ---------------------------------------------------------------------------
  // Comma handling on concrete text
  // ---------------------------------------------------------------------------

  /** Options under which addTag only refuses blank tags and duplicates (the defaults are such options). */
  predicate Permissive(cfg: Config) {
    && !cfg.readOnly && cfg.trimValue && !cfg.allowDuplicates
    && cfg.maxLength == Unbounded && cfg.maxTags == Unbounded
    && cfg.allowFreeText && cfg.validate.None? && cfg.onBeforeAdd.None?
  }

  lemma DefaultsPermissive()
    ensures Permissive(Defaults())
  {
  }

  /** A value whose trimmed text is non-empty and not yet a tag is accepted, trimmed. */
  lemma PermissiveAddsFresh(cfg: Config, m: Model, v: string)
    requires Permissive(cfg)
    requires Trim(v) != "" && Trim(v) !in m.tags
    ensures Add(cfg, m, v).ok
    ensures Add(cfg, m, v).after.tags == m.tags + [Trim(v)]
  {
  }

  /** Segments whose trimmed texts are non-empty, distinct and none already a tag. */
  predicate FreshSegments(tags: seq<string>, parts: seq<string>) {
    NoDuplicates(TrimAll(parts)) && forall i :: 0 <= i < |parts| ==> Trim(parts[i]) != "" && Trim(parts[i]) !in tags
  }

  /** Fresh segments are all added, trimmed and in order. */
  lemma {:induction false} PermissiveAddsAllFresh(cfg: Config, m: Model, vs: seq<string>)
    requires Permissive(cfg) && FreshSegments(m.tags, vs)
    ensures AddAll(cfg, m, vs).tags == m.tags + TrimAll(vs)
    decreases |vs|
  {
    if vs != [] {
      var init := vs[..|vs| - 1];
      FreshSegmentsInit(m.tags, vs);
      PermissiveAddsAllFresh(cfg, m, init);
      PermissiveAddsLast(cfg, m, vs);
    }
  }

  /** The step of the induction: the last fresh segment is appended, trimmed, after the others. */
  lemma PermissiveAddsLast(cfg: Config, m: Model, vs: seq<string>)
    requires Permissive(cfg) && vs != []
    requires AddAll(cfg, m, vs[..|vs| - 1]).tags == m.tags + TrimAll(vs[..|vs| - 1])
    requires var last := Trim(vs[|vs| - 1]); last != "" && last !in m.tags + TrimAll(vs[..|vs| - 1])
    ensures AddAll(cfg, m, vs).tags == m.tags + TrimAll(vs)
  {
    var init := vs[..|vs| - 1];
    var last := vs[|vs| - 1];
    var mi := AddAll(cfg, m, init);
    assert AddAll(cfg, m, vs) == Add(cfg, mi, last).after;
    PermissiveAddsFresh(cfg, mi, last);
    TrimAllSnoc(vs);
    SnocRegroup(m.tags, TrimAll(vs));
  }

  lemma TrimAllSnoc(vs: seq<string>)
    requires vs != []
    ensures TrimAll(vs)[..|vs| - 1] == TrimAll(vs[..|vs| - 1]) && TrimAll(vs)[|vs| - 1] == Trim(vs[|vs| - 1])
  {
  }

  lemma SnocRegroup(a: seq<string>, b: seq<string>)
    requires b != []
    ensures (a + b[..|b| - 1]) + [b[|b| - 1]] == a + b
  {
    assert b[..|b| - 1] + [b[|b| - 1]] == b;
  }

  /** Dropping the last fresh segment leaves fresh segments, and the last is not among the tags before it. */
  lemma FreshSegmentsInit(tags: seq<string>, vs: seq<string>)
    requires vs != [] && FreshSegments(tags, vs)
    ensures FreshSegments(tags, vs[..|vs| - 1])
    ensures var last := Trim(vs[|vs| - 1]); last != "" && last !in tags + TrimAll(vs[..|vs| - 1])
  {
    var init := vs[..|vs| - 1];
    var t, ti := TrimAll(vs), TrimAll(init);
    forall i, j | 0 <= i < j < |ti|
      ensures ti[i] != ti[j]
    {
      assert ti[i] == t[i] && ti[j] == t[j];
    }
    forall i | 0 <= i < |ti|
      ensures ti[i] != t[|vs| - 1]
    {
      assert ti[i] == t[i];
    }
    forall i | 0 <= i < |init|
      ensures Trim(init[i]) != "" && Trim(init[i]) !in tags
    {
      assert init[i] == vs[i];
    }
  }

  /** Pasted text with a comma adds every segment, trimmed, the last one included. */
  lemma PasteAddsAllSegments(cfg: Config, m: Model, data: string)
    requires Permissive(cfg) && ',' in data && FreshSegments(m.tags, Split(data, ','))
    ensures Paste(cfg, m, data).tags == m.tags + TrimAll(Split(data, ','))
  {
    PermissiveAddsAllFresh(cfg, m, Split(data, ','));
  }

  /** Typed text with a comma adds every segment but the last, trimmed; the last stays in the text box. */
  lemma TypingAddsAllButLast(cfg: Config, m: Model, text: string)
    requires Permissive(cfg) && ',' in text
    requires var parts := Split(text, ','); FreshSegments(m.tags, parts[..|parts| - 1])
    ensures var parts := Split(text, ',');
      && Input(cfg, m, text).tags == m.tags + TrimAll(parts[..|parts| - 1])
      && Input(cfg, m, text).input == parts[|parts| - 1]
  {
    var parts := Split(text, ',');
    var m0 := m.(input := text);
    assert Input(cfg, m, text) == AddAll(cfg, m0, parts[..|parts| - 1]).(input := parts[|parts| - 1]);
    PermissiveAddsAllFresh(cfg, m0, parts[..|parts| - 1]);
  }

  lemma SplitXYZ()
    ensures Split("x,y,z", ',') == ["x", "y", "z"]
  {
    SplitNoSep("z", ',');
    assert "y" + [','] + "z" == "y,z";
    SplitPrefix("y", "z", ',');
    assert "x" + [','] + "y,z" == "x,y,z";
    SplitPrefix("x", "y,z", ',');
  }

  lemma FreshXYZ()
    ensures TrimAll(["x", "y", "z"]) == ["x", "y", "z"] && TrimAll(["x", "y"]) == ["x", "y"]
    ensures FreshSegments([], ["x", "y", "z"]) && FreshSegments([], ["x", "y"])
  {
    FreshOfTwo();
    FreshOfThree();
  }

  lemma FreshOfTwo()
    ensures TrimAll(["x", "y"]) == ["x", "y"] && FreshSegments([], ["x", "y"])
  {
    TrimOne('x');
    TrimOne('y');
    TrimmedFresh(["x", "y"]);
  }

  lemma FreshOfThree()
    ensures TrimAll(["x", "y", "z"]) == ["x", "y", "z"] && FreshSegments([], ["x", "y", "z"])
  {
    TrimOne('x');
    TrimOne('y');
    TrimOne('z');
    TrimmedFresh(["x", "y", "z"]);
  }

  /** Distinct non-empty segments that trimming leaves alone are fresh for an empty editor. */
  lemma TrimmedFresh(parts: seq<string>)
    requires forall i :: 0 <= i < |parts| ==> Trim(parts[i]) == parts[i] && parts[i] != ""
    requires NoDuplicates(parts)
    ensures TrimAll(parts) == parts && FreshSegments([], parts)
  {
  }

  lemma TrimOne(c: char)
    requires c == 'x' || c == 'y' || c == 'z'
    ensures Trim([c]) == [c]
  {
    assert !IsSpace(c);
    assert TrimStart([c]) == [c];
  }

  /** Pasting "x,y,z" into an empty editor with the default options adds three tags. */
  lemma PasteScenario(cfg: Config, text: string)
    requires cfg == Defaults() && text == "x,y,z"
    ensures Paste(cfg, Initial(cfg), text).tags == ["x", "y", "z"]
  {
    SplitXYZ();
    assert ',' in text;
    FreshXYZ();
    DefaultsPermissive();
    PasteAddsAllSegments(cfg, Initial(cfg), text);
  }

  lemma SplitXYZParts(text: string)
    requires text == "x,y,z"
    ensures var parts := Split(text, ','); parts[..|parts| - 1] == ["x", "y"] && parts[|parts| - 1] == "z"
  {
    SplitXYZ();
  }

  /** Typing "x,y,z" into an empty editor with the default options adds two tags and leaves "z" in the text box. */
  lemma TypingScenario(cfg: Config, text: string)
    requires cfg == Defaults() && text == "x,y,z"
    ensures Input(cfg, Initial(cfg), text).tags == ["x", "y"]
    ensures Input(cfg, Initial(cfg), text).input == "z"
  {
    SplitXYZ();
    assert ',' in text;
    FreshXYZ();
    DefaultsPermissive();
    SplitXYZParts(text);
    assert Initial(cfg).tags == [];
    TypingAddsAllButLast(cfg, Initial(cfg), text);
  }
}
