/**
 * Toast notifications (Mosaic.toast): option defaults, the icon and class
 * rules, the parts of a toast's markup, and the shared container into which
 * toasts are inserted at the top or the bottom according to the position.
 */
module ToastWidget {
  import opened Strings

  /** An entry of options.actions: its text, whether it has onClick, and closeOnClick (None when absent). */
  datatype Action = Action(text: string, hasOnClick: bool, closeOnClick: Option<bool>)

  /**
   * The options object as passed. A string option is "" when it is missing or
   * falsy; duration and closable are None when absent.
   */
  datatype Options = Options(kind: string, title: string, duration: Option<int>, closable: Option<bool>,
                             progress: bool, icon: string, variant: string, actions: seq<Action>, hasOnClose: bool)

  /** The settings a toast is built from once defaults are applied. */
  datatype Settings = Settings(kind: string, title: string, duration: int, closable: bool, progress: bool,
                               variant: string, icon: Option<string>, actions: seq<Action>, hasOnClose: bool)

  function NoOptions(): Options {
    Options("", "", None, None, false, "", "", [], false)
  }

  /** The dashicon of each typed toast. */
  function TypeIcon(kind: string): Option<string> {
    if kind == "success" then Some("yes-alt")
    else if kind == "error" then Some("dismiss")
    else if kind == "warning" then Some("warning")
    else if kind == "info" then Some("info")
    else None
  }

  function Resolve(o: Options): Settings {
    var kind := if o.kind != "" then o.kind else "default";
    Settings(kind, o.title, if o.duration.Some? then o.duration.value else 4000,
      o.closable != Some(false), o.progress, if o.variant != "" then o.variant else "dark",
      if o.icon != "" then Some(o.icon) else TypeIcon(kind), o.actions, o.hasOnClose)
  }

  /** Whether the toast shows a progress bar (and has the progress class). */
  predicate ShowsProgress(s: Settings) {
    s.progress && s.duration > 0
  }

  /** The toast element's classes. */
  function ToastClasses(s: Settings): seq<string> {
    ["mosaic-toast"]
    + (if s.kind != "default" then ["mosaic-toast-" + s.kind] else [])
    + (if s.variant == "light" then ["mosaic-toast-light"] else [])
    + (if ShowsProgress(s) then ["mosaic-toast-with-progress"] else [])
  }

  /** The pieces of a toast's inner markup, in order; the template's white space is not modelled. */
  datatype Part =
    | IconPart(name: string)
    | TitlePart(text: string)
    | MessagePart(text: string)
    | ActionButton(index: nat, text: string)
    | ClosePart
    | ProgressPart(ms: int)

  function ActionButtons(actions: seq<Action>): (r: seq<Part>)
    ensures |r| == |actions|
    ensures forall p :: p in r ==> p.ActionButton? && p.index < |actions| && p.text == actions[p.index].text
    ensures forall i :: 0 <= i < |actions| ==> r[i] == ActionButton(i, actions[i].text)
  {
    seq(|actions|, i requires 0 <= i < |actions| => ActionButton(i, actions[i].text))
  }

  /** The icon and the title, each when set. */
  function Lead(s: Settings): (r: seq<Part>)
    ensures forall p :: p in r ==> p.IconPart? || p.TitlePart?
  {
    (if s.icon.Some? && s.icon.value != "" then [IconPart(s.icon.value)] else [])
    + (if s.title != "" then [TitlePart(s.title)] else [])
  }

  /** The close button and the progress bar, each when shown. */
  function Trail(s: Settings): (r: seq<Part>)
    ensures forall p :: p in r ==> p.ClosePart? || p.ProgressPart?
  {
    (if s.closable then [ClosePart] else []) + (if ShowsProgress(s) then [ProgressPart(s.duration)] else [])
  }

  /** The inner markup: icon, title, message and actions, then the close button and the progress bar. */
  function Markup(s: Settings, message: string): seq<Part> {
    Lead(s) + [MessagePart(message)] + ActionButtons(s.actions) + Trail(s)
  }

  /** The container's class for a position. */
  function ContainerClass(position: string): string {
    "mosaic-toast-container mosaic-toast-container-" + position
  }

  /** Positions starting with 'bottom' put new toasts first. */
  predicate InsertsFirst(position: string) {
    StartsWith(position, "bottom")
  }

  // ---------------------------------------------------------------------------
  // Properties of the pure part.
  // ---------------------------------------------------------------------------

  /**
   * Defaults: type 'default', duration 4000 only when it is absent (0 and
   * negative values are kept), closable unless it is false, variant 'dark'.
   */
  lemma ToastDefaults(o: Options)
    ensures Resolve(o).kind == (if o.kind == "" then "default" else o.kind)
    ensures o.duration.None? ==> Resolve(o).duration == 4000
    ensures o.duration.Some? ==> Resolve(o).duration == o.duration.value
    ensures Resolve(o).closable <==> o.closable != Some(false)
    ensures Resolve(o).variant == (if o.variant == "" then "dark" else o.variant)
  {
  }

  /** Icon precedence: the explicit icon, then the type's icon, then none; the default type has none. */
  lemma IconPrecedence(o: Options)
    ensures o.icon != "" ==> Resolve(o).icon == Some(o.icon)
    ensures o.icon == "" ==> Resolve(o).icon == TypeIcon(Resolve(o).kind)
    ensures o.icon == "" && (o.kind == "" || o.kind == "default") ==> Resolve(o).icon.None?
    ensures o.icon == "" && o.kind == "success" ==> Resolve(o).icon == Some("yes-alt")
    ensures TypeIcon(Resolve(o).kind).Some? <==> Resolve(o).kind in {"success", "error", "warning", "info"}
  {
  }

  /**
   * The type class is present exactly when the type is not 'default', and
   * the progress class exactly when progress is on and the duration positive
   * (for types other than 'with-progress', which would print the same class).
   */
  lemma ClassRules(s: Settings)
    ensures s.kind != "default" ==> "mosaic-toast-" + s.kind in ToastClasses(s)
    ensures s.kind == "default" ==> "mosaic-toast-default" !in ToastClasses(s)
    ensures s.kind != "with-progress" ==> ("mosaic-toast-with-progress" in ToastClasses(s) <==> s.progress && s.duration > 0)
    ensures ("mosaic-toast-light" in ToastClasses(s)) <== s.variant == "light"
    ensures ToastClasses(s)[0] == "mosaic-toast"
  {
    var c := ToastClasses(s);
    Distinct("mosaic-toast-default", "mosaic-toast");
    Distinct("mosaic-toast-default", "mosaic-toast-light");
    Distinct("mosaic-toast-default", "mosaic-toast-with-progress");
    Distinct("mosaic-toast-with-progress", "mosaic-toast");
    Distinct("mosaic-toast-with-progress", "mosaic-toast-light");
    if s.kind != "default" {
      assert c[1] == "mosaic-toast-" + s.kind;
      SuffixAfter("mosaic-toast-", s.kind);
      SuffixAfter("mosaic-toast-", "with-progress");
      assert "mosaic-toast-with-progress" == "mosaic-toast-" + "with-progress";
    }
  }

  lemma SuffixAfter(p: string, a: string)
    ensures (p + a)[|p|..] == a
  {
  }

  lemma Distinct(a: string, b: string)
    requires |a| != |b|
    ensures a != b
  {
  }

  /**
   * The markup has the close button exactly when the toast is closable, the
   * progress bar (lasting the duration) exactly when it shows progress, the
   * title exactly when it is non-empty, and one button per action, numbered
   * in order, after the message.
   */
  lemma MarkupRules(s: Settings, message: string)
    ensures ClosePart in Markup(s, message) <==> s.closable
    ensures ShowsProgress(s) <==> ProgressPart(s.duration) in Markup(s, message)
    ensures (exists p :: p in Markup(s, message) && p.ProgressPart?) <==> ShowsProgress(s)
    ensures TitlePart(s.title) in Markup(s, message) <==> s.title != ""
    ensures MessagePart(message) in Markup(s, message)
    ensures forall i :: 0 <= i < |s.actions| ==> ActionButton(i, s.actions[i].text) in Markup(s, message)
    ensures forall p :: p in Markup(s, message) && p.ActionButton? ==> p.index < |s.actions| && p.text == s.actions[p.index].text
  {
    var m := Markup(s, message);
    var a := ActionButtons(s.actions);
    InMarkup(s, message, ClosePart);
    InMarkup(s, message, ProgressPart(s.duration));
    InMarkup(s, message, TitlePart(s.title));
    InMarkup(s, message, MessagePart(message));
    TrailMembers(s);
    assert TitlePart(s.title) in Lead(s) <==> s.title != "";
    forall p ensures (p in m && p.ProgressPart?) <==> (p in Trail(s) && p.ProgressPart?) {
      InMarkup(s, message, p);
    }
    forall p | p in m && p.ActionButton? ensures p in a {
      InMarkup(s, message, p);
    }
    forall i | 0 <= i < |s.actions| ensures ActionButton(i, s.actions[i].text) in m {
      InMarkup(s, message, a[i]);
    }
  }

  /** A part is in the markup exactly when it is in one of its four pieces. */
  lemma InMarkup(s: Settings, message: string, p: Part)
    ensures p in Markup(s, message) <==> p in Lead(s) || p == MessagePart(message) || p in ActionButtons(s.actions) || p in Trail(s)
  {
  }

  lemma TrailMembers(s: Settings)
    ensures ClosePart in Trail(s) <==> s.closable
    ensures ProgressPart(s.duration) in Trail(s) <==> ShowsProgress(s)
    ensures (exists p :: p in Trail(s) && p.ProgressPart?) <==> ShowsProgress(s)
  {
    if ShowsProgress(s) {
      assert Trail(s)[|Trail(s)| - 1] == ProgressPart(s.duration);
    }
  }

  // ---------------------------------------------------------------------------
  // The module's state: the position, the container and the toasts.
  // ---------------------------------------------------------------------------

  /** A callback call: an action's onClick, or onClose once a toast is removed. */
  datatype Call = ActionClick(toast: nat, action: nat) | CloseCall(toast: nat)

  /**
   * A toast as its closures see it: its settings, classes and markup, whether
   * it carries mosaic-toast-out, and whether its auto-close timer is pending.
   */
  datatype Toast = Toast(settings: Settings, classes: seq<string>, markup: seq<Part>, closing: bool, timer: bool)

  /** The order with toast k taken out. */
  function Without(order: seq<nat>, k: nat): (r: seq<nat>)
    ensures forall j :: j in r <==> j in order && j != k
    ensures |r| <= |order|
  {
    if |order| == 0 then []
    else (if order[0] == k then [] else [order[0]]) + Without(order[1..], k)
  }

  class ToastHost {
    var position: string
    var hasContainer: bool
    var inBody: bool
    var containerClass: string
    var order: seq<nat>
    var toasts: seq<Toast>
    var calls: seq<Call>

    /** Every toast in the container has been created. */
    predicate Valid()
      reads this
    {
      forall j :: j in order ==> j < |toasts|
    }

    constructor()
      ensures Valid() && position == "top-right" && !hasContainer && order == [] && toasts == [] && calls == []
    {
      position := "top-right";
      hasContainer := false;
      inBody := false;
      containerClass := "";
      order := [];
      toasts := [];
      calls := [];
    }

    /** setToastPosition: later toasts use the new position; an existing container is restyled. */
    method SetPosition(pos: string)
      requires Valid()
      modifies this
      ensures Valid() && position == pos
      ensures containerClass == if old(hasContainer) then ContainerClass(pos) else old(containerClass)
      ensures hasContainer == old(hasContainer) && inBody == old(inBody)
      ensures order == old(order) && toasts == old(toasts) && calls == old(calls)
    {
      position := pos;
      if hasContainer {
        containerClass := ContainerClass(position);
      }
    }

    /** Something else on the page removes the container from the body. */
    method DetachContainer()
      requires Valid()
      modifies this
      ensures Valid() && !inBody
      ensures position == old(position) && hasContainer == old(hasContainer) && containerClass == old(containerClass)
      ensures order == old(order) && toasts == old(toasts) && calls == old(calls)
    {
      inBody := false;
    }

    /** getContainer: a new, empty container styled for the position when there is none in the body. */
    method GetContainer()
      requires Valid()
      modifies this
      ensures Valid() && hasContainer && inBody && position == old(position)
      ensures old(hasContainer) && old(inBody) ==> containerClass == old(containerClass) && order == old(order)
      ensures !(old(hasContainer) && old(inBody)) ==> containerClass == ContainerClass(position) && order == []
      ensures toasts == old(toasts) && calls == old(calls)
    {
      if !hasContainer || !inBody {
        hasContainer := true;
        inBody := true;
        containerClass := ContainerClass(position);
        order := [];
      }
    }

    /**
     * Mosaic.toast: the toast is built from the settings and put first in the
     * container for bottom positions and last otherwise; its auto-close timer
     * is set exactly when the duration is positive.
     */
    method Show(message: string, o: Options) returns (id: nat)
      requires Valid()
      modifies this
      ensures Valid() && position == old(position) && hasContainer && inBody && calls == old(calls)
      ensures id == |old(toasts)|
      ensures toasts == old(toasts) + [Toast(Resolve(o), ToastClasses(Resolve(o)), Markup(Resolve(o), message), false, Resolve(o).duration > 0)]
      ensures var before := if old(hasContainer) && old(inBody) then old(order) else [];
        order == if InsertsFirst(position) then [id] + before else before + [id]
      ensures containerClass == if old(hasContainer) && old(inBody) then old(containerClass) else ContainerClass(position)
    {
      var s := Resolve(o);
      GetContainer();
      id := |toasts|;
      toasts := toasts + [Toast(s, ToastClasses(s), Markup(s, message), false, s.duration > 0)];
      if StartsWith(position, "bottom") {
        order := [id] + order;
      } else {
        order := order + [id];
      }
    }

    /** close(): the pending timer is cleared and the toast gets mosaic-toast-out. */
    method Close(id: nat)
      requires Valid() && id < |toasts|
      modifies this
      ensures Valid() && |toasts| == |old(toasts)|
      ensures toasts == old(toasts)[id := old(toasts)[id].(closing := true, timer := false)]
      ensures position == old(position) && hasContainer == old(hasContainer) && inBody == old(inBody)
      ensures containerClass == old(containerClass) && order == old(order) && calls == old(calls)
    {
      toasts := toasts[id := toasts[id].(closing := true, timer := false)];
    }

    /** The out-animation delay elapses: the toast leaves the container and onClose runs. */
    method Removed(id: nat)
      requires Valid() && id < |toasts|
      modifies this
      ensures Valid() && toasts == old(toasts) && id !in order
      ensures order == Without(old(order), id)
      ensures calls == old(calls) + (if toasts[id].settings.hasOnClose then [CloseCall(id)] else [])
      ensures position == old(position) && hasContainer == old(hasContainer) && inBody == old(inBody)
      ensures containerClass == old(containerClass)
    {
      order := Without(order, id);
      if toasts[id].settings.hasOnClose {
        calls := calls + [CloseCall(id)];
      }
    }

    /**
     * A click on action button i: nothing without onClick; otherwise onClick
     * runs, and the toast closes unless closeOnClick is false.
     */
    method ClickAction(id: nat, i: nat)
      requires Valid() && id < |toasts| && i < |toasts[id].settings.actions|
      modifies this
      ensures Valid() && order == old(order) && position == old(position) && containerClass == old(containerClass)
      ensures hasContainer == old(hasContainer) && inBody == old(inBody)
      ensures var a := old(toasts)[id].settings.actions[i];
        && calls == old(calls) + (if a.hasOnClick then [ActionClick(id, i)] else [])
        && toasts == if a.hasOnClick && a.closeOnClick != Some(false)
          then old(toasts)[id := old(toasts)[id].(closing := true, timer := false)]
          else old(toasts)
    {
      var a := toasts[id].settings.actions[i];
      if a.hasOnClick {
        calls := calls + [ActionClick(id, i)];
        if a.closeOnClick != Some(false) {
          Close(id);
        }
      }
    }

    /** The mouse enters the toast: the auto-close timer is cleared. */
    method MouseEnter(id: nat)
      requires Valid() && id < |toasts|
      modifies this
      ensures Valid() && toasts == old(toasts)[id := old(toasts)[id].(timer := false)]
      ensures order == old(order) && calls == old(calls) && position == old(position) && containerClass == old(containerClass)
      ensures hasContainer == old(hasContainer) && inBody == old(inBody)
    {
      toasts := toasts[id := toasts[id].(timer := false)];
    }

    /** The mouse leaves the toast: a timer is set again when the duration is positive and none is pending. */
    method MouseLeave(id: nat)
      requires Valid() && id < |toasts|
      modifies this
      ensures Valid()
      ensures toasts == old(toasts)[id := old(toasts)[id].(timer := old(toasts)[id].timer || old(toasts)[id].settings.duration > 0)]
      ensures order == old(order) && calls == old(calls) && position == old(position) && containerClass == old(containerClass)
      ensures hasContainer == old(hasContainer) && inBody == old(inBody)
    {
      if toasts[id].settings.duration > 0 && !toasts[id].timer {
        toasts := toasts[id := toasts[id].(timer := true)];
      }
    }

    /** clearToasts: the container, when there is one, is emptied. */
    method Clear()
      requires Valid()
      modifies this
      ensures Valid() && (old(hasContainer) ==> order == []) && (!old(hasContainer) ==> order == old(order))
      ensures toasts == old(toasts) && calls == old(calls) && position == old(position)
      ensures hasContainer == old(hasContainer) && inBody == old(inBody) && containerClass == old(containerClass)
    {
      if hasContainer {
        order := [];
      }
    }

    /** toastSuccess, toastError, toastWarning and toastInfo: the options with their type replaced. */
    method ShowTyped(kind: string, message: string, o: Options) returns (id: nat)
      requires Valid() && kind in {"success", "error", "warning", "info"}
      modifies this
      ensures Valid() && position == old(position) && hasContainer && inBody && calls == old(calls)
      ensures id == |old(toasts)|
      ensures var s := Resolve(o.(kind := kind));
        toasts == old(toasts) + [Toast(s, ToastClasses(s), Markup(s, message), false, s.duration > 0)]
      ensures var before := if old(hasContainer) && old(inBody) then old(order) else [];
        order == if InsertsFirst(position) then [id] + before else before + [id]
      ensures containerClass == if old(hasContainer) && old(inBody) then old(containerClass) else ContainerClass(position)
      ensures toasts[id].settings == Resolve(o.(kind := kind))
      ensures "mosaic-toast-" + kind in toasts[id].classes
      ensures o.icon == "" ==> toasts[id].settings.icon == TypeIcon(kind) && TypeIcon(kind).Some?
    {
      id := Show(message, o.(kind := kind));
      ClassRules(Resolve(o.(kind := kind)));
    }
  }
}
