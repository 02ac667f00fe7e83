/**
 * Dialogs (Mosaic.alert, confirm, prompt and dialog): the options each builder
 * passes, the structure of the dialog markup, and the result the dialog's
 * promise settles with for each button, key and click.
 */
module DialogWidget {
  import opened Strings

  /** A footer button: its text, its data-action and its class ("" when absent). */
  datatype Button = Button(text: string, action: string, cls: string)

  /**
   * What showDialog receives. A string is "" when the option is absent or
   * falsy; the flags are false when absent.
   */
  datatype Options = Options(title: string, message: string, kind: string, icon: string, closable: bool,
                             input: bool, inputValue: string, inputPlaceholder: string, buttons: seq<Button>)

  function OkButton(): Button {
    Button("OK", "confirm", "mosaic-btn-primary")
  }

  function CancelButton(): Button {
    Button("Cancel", "cancel", "mosaic-btn-secondary-outline")
  }

  // ---------------------------------------------------------------------------
  // The markup createDialogHTML prints, as a structure (white space aside).
  // ---------------------------------------------------------------------------

  datatype Icon = Icon(cls: string, name: string)
  datatype Header = Header(icon: Option<Icon>, title: string, close: bool)
  datatype Input = Input(value: string, placeholder: string)
  datatype Rendered = Rendered(cls: string, action: string, text: string)
  datatype Markup = Markup(header: Option<Header>, message: string, input: Option<Input>, buttons: seq<Rendered>)

  /** The icon's class: typed when a type is given, empty otherwise. */
  function IconClass(kind: string): string {
    if kind != "" then "mosaic-modal-icon mosaic-modal-icon-" + kind else ""
  }

  /** A button's class: mosaic-btn and its own class, mosaic-btn-secondary when it has none. */
  function ButtonClass(b: Button): string {
    "mosaic-btn " + (if b.cls != "" then b.cls else "mosaic-btn-secondary")
  }

  function RenderButtons(buttons: seq<Button>): (r: seq<Rendered>)
    ensures |r| == |buttons|
  {
    seq(|buttons|, i requires 0 <= i < |buttons| => Rendered(ButtonClass(buttons[i]), buttons[i].action, buttons[i].text))
  }

  predicate ShowsHeader(o: Options) {
    o.title != "" || o.icon != "" || o.closable
  }

  /** createDialogHTML. */
  function DialogMarkup(o: Options): Markup {
    var header := if ShowsHeader(o)
      then Some(Header(if o.icon != "" then Some(Icon(IconClass(o.kind), o.icon)) else None, o.title, o.closable))
      else None;
    Markup(header, o.message, if o.input then Some(Input(o.inputValue, o.inputPlaceholder)) else None, RenderButtons(o.buttons))
  }

  /** The data-action values in document order: the header's close button, then the footer's buttons. */
  function Actions(o: Options): (r: seq<string>)
    ensures |r| == (if o.closable then 1 else 0) + |o.buttons|
  {
    (if o.closable then ["close"] else []) + seq(|o.buttons|, i requires 0 <= i < |o.buttons| => o.buttons[i].action)
  }

  /**
   * The header is printed exactly when there is a title, an icon or a close
   * button, and it holds exactly those; the footer holds one button per
   * option button, in the given order.
   */
  lemma MarkupRules(o: Options)
    ensures DialogMarkup(o).header.Some? <==> o.title != "" || o.icon != "" || o.closable
    ensures DialogMarkup(o).header.Some? ==>
      && DialogMarkup(o).header.value.close == o.closable
      && DialogMarkup(o).header.value.title == o.title
      && (DialogMarkup(o).header.value.icon.Some? <==> o.icon != "")
    ensures DialogMarkup(o).input.Some? <==> o.input
    ensures |DialogMarkup(o).buttons| == |o.buttons|
    ensures forall i :: 0 <= i < |o.buttons| ==>
      DialogMarkup(o).buttons[i] == Rendered(ButtonClass(o.buttons[i]), o.buttons[i].action, o.buttons[i].text)
  {
  }

  /** The icon has a type class exactly when a type is given; a button without class is secondary. */
  lemma ClassRules(kind: string, b: Button)
    ensures IconClass(kind) == "" <==> kind == ""
    ensures b.cls == "" ==> ButtonClass(b) == "mosaic-btn mosaic-btn-secondary"
    ensures b.cls != "" ==> ButtonClass(b) == "mosaic-btn " + b.cls
  {
  }

  // ---------------------------------------------------------------------------
  // Results.
  // ---------------------------------------------------------------------------

  /** What the promise resolves with: text, a boolean, null, or another action's name. */
  datatype Result = Text(text: string) | Flag(flag: bool) | Null | ActionName(name: string)

  /** The result for a dismissal (cancel, close, overlay, Escape): null with an input, false without. */
  function Dismissed(input: Option<string>): Result {
    if input.Some? then Null else Flag(false)
  }

  /** A button's result; `input` is the input's current text when the dialog has an input. */
  function ButtonResult(action: string, input: Option<string>): Result {
    if action == "confirm" then (if input.Some? then Text(input.value) else Flag(true))
    else if action == "cancel" || action == "close" then Dismissed(input)
    else ActionName(action)
  }

  /**
   * confirm gives the text typed (with an input) or true; cancel and close
   * give null (with an input) or false, the same as a dismissal; any other
   * action gives its own name.
   */
  lemma ResultRules(action: string, input: Option<string>)
    ensures ButtonResult("confirm", input) == if input.Some? then Text(input.value) else Flag(true)
    ensures ButtonResult("cancel", input) == ButtonResult("close", input) == Dismissed(input)
    ensures Dismissed(input) == if input.Some? then Null else Flag(false)
    ensures action !in {"confirm", "cancel", "close"} ==> ButtonResult(action, input) == ActionName(action)
    ensures ButtonResult(action, input).Flag? ==> input.None? && (ButtonResult(action, input).flag <==> action == "confirm")
  {
  }

  /**
   * An open dialog: its options, the input's current text, whether the Escape
   * listener is still attached, and the results close was called with, in
   * order. The promise settles with the first of them.
   */
  class Dialog {
    const options: Options
    const markup: Markup
    var inputText: string
    var escListening: bool
    var requests: seq<Result>

    /** showDialog: the markup is built and shown; the input starts with its value. */
    constructor(o: Options)
      ensures options == o && markup == DialogMarkup(o)
      ensures inputText == o.inputValue && escListening && requests == []
    {
      options := o;
      markup := DialogMarkup(o);
      inputText := o.inputValue;
      escListening := true;
      requests := [];
    }

    /** The input's text when the dialog has one. */
    function CurrentInput(): Option<string>
      reads this
    {
      if options.input then Some(inputText) else None
    }

    /** The value the promise settles with, once close has been called. */
    function Outcome(): Option<Result>
      reads this
    {
      if |requests| > 0 then Some(requests[0]) else None
    }

    /** The user edits the input. */
    method Type(text: string)
      modifies this
      ensures inputText == text && escListening == old(escListening) && requests == old(requests)
    {
      inputText := text;
    }

    /** A click on the i-th data-action element. */
    method ClickButton(i: nat)
      requires i < |Actions(options)|
      modifies this
      ensures inputText == old(inputText) && escListening == old(escListening)
      ensures requests == old(requests) + [ButtonResult(Actions(options)[i], CurrentInput())]
      ensures old(Outcome()).Some? ==> Outcome() == old(Outcome())
    {
      requests := requests + [ButtonResult(Actions(options)[i], CurrentInput())];
    }

    /** A click on the overlay itself dismisses; one on the modal inside it does nothing. */
    method ClickOverlay(onOverlay: bool)
      modifies this
      ensures inputText == old(inputText) && escListening == old(escListening)
      ensures requests == old(requests) + (if onOverlay then [Dismissed(CurrentInput())] else [])
    {
      if onOverlay {
        requests := requests + [Dismissed(CurrentInput())];
      }
    }

    /** The first Escape on the document dismisses and detaches the listener. */
    method DocumentKey(key: string)
      modifies this
      ensures inputText == old(inputText)
      ensures key == "Escape" && old(escListening) ==> !escListening && requests == old(requests) + [Dismissed(CurrentInput())]
      ensures !(key == "Escape" && old(escListening)) ==> escListening == old(escListening) && requests == old(requests)
    {
      if key == "Escape" && escListening {
        escListening := false;
        requests := requests + [Dismissed(CurrentInput())];
      }
    }

    /** Enter in the input closes with its text. */
    method InputKey(key: string)
      requires options.input
      modifies this
      ensures inputText == old(inputText) && escListening == old(escListening)
      ensures requests == old(requests) + (if key == "Enter" then [Text(inputText)] else [])
    {
      if key == "Enter" {
        requests := requests + [Text(inputText)];
      }
    }
  }

  // ---------------------------------------------------------------------------
  // The builders.
  // ---------------------------------------------------------------------------

  /** The second argument of alert: a title string or an options object. */
  datatype AlertArg = TitleArg(title: string) | ObjectArg(title: string, closable: bool)

  /** Mosaic.alert, and likewise success, warning and error, which pass the same options. */
  function AlertOptions(message: string, arg: AlertArg): Options {
    var closable := arg.ObjectArg? && arg.closable;
    Options(arg.title, message, "", "", closable, false, "", "", [OkButton()])
  }

  /** Mosaic.confirm. */
  function ConfirmOptions(message: string, title: string): Options {
    Options(title, message, "", "", false, false, "", "", [OkButton(), CancelButton()])
  }

  /** Mosaic.confirmDanger. */
  function ConfirmDangerOptions(message: string, title: string): Options {
    Options(title, message, "", "", false, false, "", "", [Button("Delete", "confirm", "mosaic-btn-danger"), CancelButton()])
  }

  /** Mosaic.prompt. */
  function PromptOptions(message: string, defaultValue: string, title: string): Options {
    Options(title, message, "", "", false, true, defaultValue, "", [OkButton(), CancelButton()])
  }

  /** The options object given to Mosaic.dialog; `buttons` is None when absent. */
  datatype DialogArgs = DialogArgs(title: string, message: string, kind: string, icon: string, input: bool,
                                   inputValue: string, inputPlaceholder: string, closable: bool, buttons: Option<seq<Button>>)

  /** Mosaic.dialog: the given options, with a single OK button when none are given. */
  function DialogOptions(a: DialogArgs): Options {
    Options(a.title, a.message, a.kind, a.icon, a.closable, a.input, a.inputValue, a.inputPlaceholder,
      if a.buttons.Some? then a.buttons.value else [OkButton()])
  }

  /**
   * The alert builders: a single OK button confirming, no type and no icon,
   * closable only when asked; a string argument is the title.
   */
  lemma AlertShape(message: string, arg: AlertArg)
    ensures var o := AlertOptions(message, arg);
      && o.buttons == [Button("OK", "confirm", "mosaic-btn-primary")]
      && o.kind == "" && o.icon == "" && !o.input && o.title == arg.title && o.message == message
      && (o.closable <==> arg.ObjectArg? && arg.closable)
    ensures arg.TitleArg? ==> !AlertOptions(message, arg).closable
    ensures DialogMarkup(AlertOptions(message, arg)).header.Some? <==> arg.title != "" || (arg.ObjectArg? && arg.closable)
    ensures Actions(AlertOptions(message, arg))[|Actions(AlertOptions(message, arg))| - 1] == "confirm"
  {
  }

  /**
   * confirm and confirmDanger: a confirm button then a cancel button, so the
   * first gives true and the second false; confirmDanger's first is a Delete
   * danger button.
   */
  lemma ConfirmShape(message: string, title: string)
    ensures Actions(ConfirmOptions(message, title)) == ["confirm", "cancel"]
    ensures Actions(ConfirmDangerOptions(message, title)) == ["confirm", "cancel"]
    ensures ButtonResult(Actions(ConfirmOptions(message, title))[0], None) == Flag(true)
    ensures ButtonResult(Actions(ConfirmOptions(message, title))[1], None) == Flag(false)
    ensures ConfirmDangerOptions(message, title).buttons[0] == Button("Delete", "confirm", "mosaic-btn-danger")
    ensures DialogMarkup(ConfirmOptions(message, title)).header.Some? <==> title != ""
  {
    assert Actions(ConfirmOptions(message, title)) == ["confirm", "cancel"];
    assert Actions(ConfirmDangerOptions(message, title)) == ["confirm", "cancel"];
  }

  /**
   * prompt: an input holding the default value and no placeholder; OK gives
   * what is typed, Cancel gives null.
   */
  lemma PromptShape(message: string, defaultValue: string, title: string, typed: string)
    ensures DialogMarkup(PromptOptions(message, defaultValue, title)).input == Some(Input(defaultValue, ""))
    ensures Actions(PromptOptions(message, defaultValue, title)) == ["confirm", "cancel"]
    ensures ButtonResult("confirm", Some(typed)) == Text(typed)
    ensures ButtonResult("cancel", Some(typed)) == Null
  {
    assert Actions(PromptOptions(message, defaultValue, title)) == ["confirm", "cancel"];
  }

  /** dialog(): a single OK confirm button when no buttons are given; given buttons are used as they are. */
  lemma DialogDefaults(a: DialogArgs)
    ensures a.buttons.None? ==> DialogOptions(a).buttons == [Button("OK", "confirm", "mosaic-btn-primary")]
    ensures a.buttons.Some? ==> DialogOptions(a).buttons == a.buttons.value
    ensures DialogMarkup(DialogOptions(a)).header.Some? <==> a.title != "" || a.icon != "" || a.closable
    ensures DialogMarkup(DialogOptions(a)).message == a.message
  {
  }

  /** The promise settles with the result of the first close, whatever happens afterwards. */
  method ConfirmThenCancel(message: string) returns (outcome: Option<Result>)
    ensures outcome == Some(Flag(true))
  {
    var d := new Dialog(ConfirmOptions(message, ""));
    d.ClickButton(0);
    d.ClickButton(1);
    outcome := d.Outcome();
  }
}
