/**
 * The host side of the console bridge: the `message` listener that accepts
 * log events only from the embedded preview iframe, and `renderConsoleMessage`,
 * which turns the event's arguments into one text line of the console panel.
 *
 * JSON is not modelled: an object argument carries the text that
 * `JSON.stringify(arg, null, 2)` gives for it, and a primitive the text that
 * `String(arg)` gives for it.
 */
module ConsoleLog {

  import opened Wrappers
  import opened Text

  /** One argument of a console call, as `renderConsoleMessage` tells arguments apart. */
  datatype Arg =
      /** A non-null object whose `__error` property is truthy; `message` is the text of its
          `message` property, `stack` that of its `stack` property when that is truthy. */
    | ErrorObject(message: string, stack: Option<string>)
      /** Any other non-null object (arrays included), with its pretty-printed JSON. */
    | PlainObject(prettyJson: string)
      /** Anything else (`null` included), with its `String(...)` form. */
    | Primitive(text: string)

  /** What separates an error's message from its stack. */
  const StackSeparator := '\n'

  /** The text one argument renders as. */
  function FormatArg(a: Arg): string {
    match a
    case ErrorObject(m, st) => m + [StackSeparator] + st.GetOr("")
    case PlainObject(j) => j
    case Primitive(t) => t
  }

  /** The first line of a text, and what follows its first line break. */
  function FirstLine(s: string): string {
    if StackSeparator in s then s[..IndexOf(s, StackSeparator)] else s
  }

  function AfterFirstLine(s: string): string {
    if StackSeparator in s then s[IndexOf(s, StackSeparator) + 1..] else ""
  }

  /** An error argument always renders as its message followed by a line break, even when it
      has no stack: then the text ends with that line break. */
  lemma ErrorArgAlwaysBreaks(message: string, stack: Option<string>)
    ensures var text := FormatArg(ErrorObject(message, stack));
      && |text| > |message|
      && text[..|message|] == message
      && text[|message|] == StackSeparator
      && (stack == None ==> text == message + [StackSeparator])
  {
  }

  /** For a single-line message, the first line of the rendered error is the message and the
      rest is the stack, or nothing when there is none. */
  lemma ErrorArgLines(message: string, stack: Option<string>)
    requires StackSeparator !in message
    ensures var text := FormatArg(ErrorObject(message, stack));
      && StackSeparator in text
      && FirstLine(text) == message
      && AfterFirstLine(text) == stack.GetOr("")
  {
    var text := FormatArg(ErrorObject(message, stack));
    assert text[|message|] == StackSeparator;
    var i := IndexOf(text, StackSeparator);
    assert i == |message|;
    assert text[..i] == message;
    assert text[i + 1..] == stack.GetOr("");
  }

  /** The rendered text of each argument, in order. */
  function FormattedArgs(args: seq<Arg>): (parts: seq<string>)
    ensures |parts| == |args|
    ensures forall i :: 0 <= i < |args| ==> parts[i] == FormatArg(args[i])
  {
    if args == [] then [] else [FormatArg(args[0])] + FormattedArgs(args[1..])
  }

  /** The `formattedArgs` text: the rendered arguments joined with one space. */
  function FormatArgs(args: seq<Arg>): string {
    Join(FormattedArgs(args), " ")
  }

  /** When no rendered argument contains a space, splitting the line at spaces recovers each
      argument's text, in order: the join adds exactly one space between neighbours and nothing
      else. A call without arguments renders as the empty line. */
  lemma FormatArgsSplits(args: seq<Arg>)
    requires forall i :: 0 <= i < |args| ==> ' ' !in FormatArg(args[i])
    ensures args == [] ==> FormatArgs(args) == ""
    ensures args != [] ==> Split(FormatArgs(args), ' ') == FormattedArgs(args)
  {
    if args != [] {
      SplitJoin(FormattedArgs(args), ' ');
    }
  }

  /** One entry of the console panel: a `log-entry log-<level>` block holding the text. */
  datatype Entry = Entry(level: string, text: string)

  /** `renderConsoleMessage(level, args)`: the entry it appends. */
  function RenderEntry(level: string, args: seq<Arg>): Entry {
    Entry(level, FormatArgs(args))
  }

  // ---------------------------------------------------------------------------
  // The message listener

  /** Identity of a browser window (the `event.source` of a message). */
  type WindowId = nat

  /** The `data` of a message event, as the listener reads it. */
  datatype MessageData =
      /** `null` or `undefined`: destructuring it throws, so the listener stops. */
    | Unreadable
      /** An object; `source` is its `source` property when that is a string, `level` the text
          of its `level` property, `message` its `message` property when that is an array
          (anything else makes `args.map` throw before the entry is appended). */
    | Record(source: Option<string>, level: string, message: Option<seq<Arg>>)

  /** A `message` event: the window that posted it (`None` for no window) and its data. */
  datatype MessageEvent = MessageEvent(sender: Option<WindowId>, data: MessageData)

  /** The tag the interceptor puts on every message it posts. */
  const ConsoleSource := "iframe-console"

  /** The listener forwards a message only if the current preview iframe's window sent it and
      it is tagged as console output. */
  predicate Accepts(iframe: WindowId, ev: MessageEvent) {
    ev.sender == Some(iframe) && ev.data.Record? && ev.data.source == Some(ConsoleSource)
  }

  /** The console panel after the listener handled `ev`. */
  function AfterMessage(panel: seq<Entry>, iframe: WindowId, ev: MessageEvent): seq<Entry> {
    if Accepts(iframe, ev) && ev.data.message.Some? then
      panel + [RenderEntry(ev.data.level, ev.data.message.value)]
    else
      panel
  }

  /** A message from any other window, or without the console tag, leaves the panel as it is,
      whatever else it carries. */
  lemma SpoofedMessageIgnored(panel: seq<Entry>, iframe: WindowId, ev: MessageEvent)
    requires ev.sender != Some(iframe) || !ev.data.Record? || ev.data.source != Some(ConsoleSource)
    ensures AfterMessage(panel, iframe, ev) == panel
  {
  }

  /** The panel grows exactly when the message is accepted and carries an argument list; it
      then grows by one entry, at the end, rendered from that message, and what was there
      before is kept as it was. */
  lemma AcceptedMessageAppendsOne(panel: seq<Entry>, iframe: WindowId, ev: MessageEvent)
    ensures var r := AfterMessage(panel, iframe, ev);
      && (|r| > |panel| <==> Accepts(iframe, ev) && ev.data.message.Some?)
      && |r| <= |panel| + 1
      && r[..|panel|] == panel
      && (|r| > |panel| ==> r[|panel|] == RenderEntry(ev.data.level, ev.data.message.value))
  {
  }

  /** The panel after a stream of messages, handled in arrival order. */
  function AfterMessages(panel: seq<Entry>, iframe: WindowId, evs: seq<MessageEvent>): seq<Entry>
    decreases |evs|
  {
    if evs == [] then panel else AfterMessages(AfterMessage(panel, iframe, evs[0]), iframe, evs[1..])
  }

  /** The entries a stream of messages contributes: one per accepted message that carries an
      argument list, in arrival order. */
  function AcceptedEntries(iframe: WindowId, evs: seq<MessageEvent>): (es: seq<Entry>)
    ensures |es| <= |evs|
    decreases |evs|
  {
    if evs == [] then []
    else AfterMessage([], iframe, evs[0]) + AcceptedEntries(iframe, evs[1..])
  }

  /** Handling a stream of messages keeps the earlier entries and appends the accepted ones in
      the order they arrived. */
  lemma {:induction false} MessagesAppendInOrder(panel: seq<Entry>, iframe: WindowId, evs: seq<MessageEvent>)
    ensures AfterMessages(panel, iframe, evs) == panel + AcceptedEntries(iframe, evs)
    decreases |evs|
  {
    if evs != [] {
      var next := AfterMessage(panel, iframe, evs[0]);
      assert next == panel + AfterMessage([], iframe, evs[0]);
      MessagesAppendInOrder(next, iframe, evs[1..]);
    }
  }
}
