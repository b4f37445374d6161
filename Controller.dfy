/**
 * The page controller of main.js with the DOM, the editor widget and the
 * iframe taken away: the module-level state its event handlers update in
 * place, the three editor buffers, the console panel and the iframe's
 * `srcdoc`. Each handler is a method whose postcondition gives the new state
 * in terms of the rules of `Settings`, `Preview`, `ConsoleLog`, `Export` and
 * `Debounce`.
 */
module Controller {

  import opened Wrappers
  import opened Settings
  import opened ConsoleLog
  import opened Preview
  import opened Export
  import opened Debounce

  datatype BufferKind = HtmlBuffer | CssBuffer | JsBuffer

  /** The editor tab that is active when the format button is pressed. */
  datatype Tab = EditorTab(buffer: BufferKind) | ConsoleTab

  /** What an editor `change` event carries: the buffer and its text after the edit. */
  datatype Change = Change(buffer: BufferKind, text: string)

  /** The configured default editor contents; `None` for an entry that is missing. */
  datatype Defaults = Defaults(html: Option<string>, css: Option<string>, js: Option<string>)

  class Playground {
    // the three editor buffers
    var html: string
    var css: string
    var js: string
    // `editorFontSize`, `currentEditorTheme`, `currentFullscreen`, `forcedLayout`
    var fontSize: int
    var theme: Theme
    var fullscreen: Option<Pane>
    var forcedLayout: Option<Layout>
    // `window.innerWidth`, and the layout the page's classes currently show
    var viewportWidth: int
    var shownLayout: Layout
    // the entries of the console panel, oldest first, and the iframe's document
    var consolePanel: seq<Entry>
    var srcdoc: string
    // the interceptor script, the preview iframe's window, and the shared debounce timer
    const interceptor: string
    const iframe: WindowId
    const timer: Debouncer<Change>

    /** The font size never drops below the floor, and the page shows the layout that
        `updateLayout` chooses for the current forced layout and width. */
    ghost predicate Valid()
      reads this
    {
      fontSize >= MinFontSize && shownLayout == EffectiveLayout(forcedLayout, viewportWidth)
    }

    function Buffer(kind: BufferKind): string
      reads this
    {
      match kind
      case HtmlBuffer => html
      case CssBuffer => css
      case JsBuffer => js
    }

    /** Page start-up: the editors get their default contents (or nothing), the preferences
        their defaults, the layout is applied, and a first preview runs. Edits made while the
        editors are filled do not reach the debounce timer, which is attached afterwards. */
    constructor (defaults: Defaults, interceptor: string, iframe: WindowId, width: int)
      ensures Valid()
      ensures html == defaults.html.GetOr("") && css == defaults.css.GetOr("") && js == defaults.js.GetOr("")
      ensures fontSize == DefaultFontSize && theme == Dark && fullscreen == None && forcedLayout == None
      ensures viewportWidth == width
      ensures consolePanel == [] && srcdoc == ComposePreview(interceptor, css, html, js)
      ensures this.interceptor == interceptor && this.iframe == iframe
      ensures fresh(timer) && timer.pending == None
    {
      html := defaults.html.GetOr("");
      css := defaults.css.GetOr("");
      js := defaults.js.GetOr("");
      fontSize := DefaultFontSize;
      theme := Dark;
      fullscreen := None;
      forcedLayout := None;
      viewportWidth := width;
      shownLayout := EffectiveLayout(None, width);
      this.interceptor := interceptor;
      this.iframe := iframe;
      timer := new Debouncer();
      consolePanel := [];
      srcdoc := ComposePreview(interceptor, defaults.css.GetOr(""), defaults.html.GetOr(""),
                               defaults.js.GetOr(""));
    }

    // -------------------------------------------------------------------------
    // Preview and console

    /** `updatePreview` (the run button, and the debounced reaction to edits): the console
        panel is emptied first, then the iframe gets the document composed from the buffers. */
    method UpdatePreview()
      modifies this`consolePanel, this`srcdoc
      ensures consolePanel == []
      ensures srcdoc == ComposePreview(interceptor, css, html, js)
    {
      consolePanel := [];
      srcdoc := ComposePreview(interceptor, css, html, js);
    }

    /** The clear button empties the panel and nothing else. */
    method ClearConsole()
      modifies this`consolePanel
      ensures consolePanel == []
    {
      consolePanel := [];
    }

    /** The `message` listener: an accepted console message appends its entry, any other
        message leaves the panel as it is. */
    method OnMessage(ev: MessageEvent)
      modifies this`consolePanel
      ensures consolePanel == AfterMessage(old(consolePanel), iframe, ev)
    {
      if ev.sender != Some(iframe) {
        return;
      }
      match ev.data {
        case Unreadable =>
        case Record(source, level, message) =>
          if source == Some(ConsoleSource) && message.Some? {
            consolePanel := consolePanel + [RenderEntry(level, message.value)];
          }
      }
    }

    // -------------------------------------------------------------------------
    // Edits and the debounced preview

    /** An editor `change` event: the buffer now holds the new text, and the debounced
        `updatePreview` is re-armed with this event as its arguments, cancelling whatever call
        was pending on the shared timer. */
    method Edit(change: Change)
      modifies this`html, this`css, this`js, timer
      ensures Buffer(change.buffer) == change.text
      ensures forall k :: k != change.buffer ==> Buffer(k) == old(Buffer(k))
      ensures timer.pending == Next(old(timer.pending), Trigger(change)).slot
    {
      match change.buffer {
        case HtmlBuffer => html := change.text;
        case CssBuffer => css := change.text;
        case JsBuffer => js := change.text;
      }
      timer.Trigger(change);
    }

    /** The debounce delay elapses: when a call is pending it runs `updatePreview`, which ignores
        the event it was called with and composes the buffers as they are now. */
    method TimerElapses()
      modifies this`consolePanel, this`srcdoc, timer
      ensures timer.pending == None
      ensures old(timer.pending).Some? ==> consolePanel == [] && srcdoc == ComposePreview(interceptor, css, html, js)
      ensures old(timer.pending).None? ==> consolePanel == old(consolePanel) && srcdoc == old(srcdoc)
    {
      var ran := timer.Elapse();
      if ran.Some? {
        UpdatePreview();
      }
    }

    /** The format button: nothing happens without an active editor tab or when the formatter
        throws (`formatted` is `None`, the error goes to the page's own console); otherwise the
        formatted text replaces the buffer, which the editor reports as a change. */
    method FormatCode(active: Option<Tab>, formatted: Option<string>)
      modifies this`html, this`css, this`js, timer
      ensures active.Some? && active.value.EditorTab? && formatted.Some? ==>
        && Buffer(active.value.buffer) == formatted.value
        && (forall k :: k != active.value.buffer ==> Buffer(k) == old(Buffer(k)))
        && timer.pending == Some(Change(active.value.buffer, formatted.value))
      ensures !(active.Some? && active.value.EditorTab? && formatted.Some?) ==>
        html == old(html) && css == old(css) && js == old(js) && timer.pending == old(timer.pending)
    {
      if active.None? || active.value.ConsoleTab? {
        return;
      }
      if formatted.Some? {
        Edit(Change(active.value.buffer, formatted.value));
      }
    }

    // -------------------------------------------------------------------------
    // Preferences

    /** The zoom-in button. */
    method ZoomInClicked()
      requires Valid()
      modifies this`fontSize
      ensures Valid()
      ensures fontSize == Zoomed(old(fontSize), ZoomIn)
    {
      fontSize := fontSize + 1;
    }

    /** The zoom-out button: only while the size is above the floor. */
    method ZoomOutClicked()
      requires Valid()
      modifies this`fontSize
      ensures Valid()
      ensures fontSize == Zoomed(old(fontSize), ZoomOut)
    {
      if fontSize > MinFontSize {
        fontSize := fontSize - 1;
      }
    }

    /** The theme button. */
    method ToggleEditorTheme()
      modifies this`theme
      ensures theme == ToggledTheme(old(theme))
    {
      theme := if theme == Dark then Light else Dark;
    }

    /** A fullscreen button: the pane's fullscreen state toggles, and the layout is re-applied
        (it is the same layout, since neither the forced layout nor the width changed). */
    method ToggleFullscreen(pane: Pane)
      requires Valid()
      modifies this`fullscreen, this`shownLayout
      ensures Valid()
      ensures fullscreen == ToggledFullscreen(old(fullscreen), pane)
      ensures shownLayout == old(shownLayout)
    {
      var exiting := fullscreen == Some(pane);
      fullscreen := None;
      UpdateLayout();
      if !exiting {
        fullscreen := Some(pane);
      }
    }

    /** `updateLayout`: the page shows the effective layout. */
    method UpdateLayout()
      modifies this`shownLayout
      ensures shownLayout == EffectiveLayout(forcedLayout, viewportWidth)
    {
      shownLayout := match forcedLayout
        case Some(l) => l
        case None => if viewportWidth < LgBreakpoint then Vertical else Horizontal;
    }

    /** The layout button: the forced layout becomes the opposite of the layout on screen, so
        the layout on screen flips. */
    method ToggleLayout()
      requires Valid()
      modifies this`forcedLayout, this`shownLayout
      ensures Valid()
      ensures forcedLayout == ForcedByToggle(old(shownLayout))
      ensures shownLayout == Opposite(old(shownLayout))
    {
      forcedLayout := if shownLayout == Vertical then Some(Horizontal) else Some(Vertical);
      UpdateLayout();
    }

    /** A window resize: the forced layout is dropped and the new width decides. */
    method Resize(width: int)
      requires Valid()
      modifies this`viewportWidth, this`forcedLayout, this`shownLayout
      ensures Valid()
      ensures viewportWidth == width && forcedLayout == None
      ensures shownLayout == EffectiveLayout(None, width)
    {
      viewportWidth := width;
      forcedLayout := None;
      UpdateLayout();
    }

    // -------------------------------------------------------------------------
    // Export

    /** The download button: the archive's files and its name for the clock reading `now`.
        Unpacked, the archive gives back the CSS and JS buffers verbatim and a page that links
        them, and the name reads back as `now`. The result is exactly the bundle of the three
        buffers and the name built from `now`, so `BundleUnpacks` and `TimestampShape` apply. */
    method DownloadZip(now: LocalTime) returns (files: seq<File>, name: string)
      requires ValidTime(now)
      ensures Lookup(files, StyleFile) == Some(css)
      ensures Lookup(files, ScriptFile) == Some(js)
      ensures Lookup(files, IndexFile) == Some(IndexHtml(html))
      ensures ParseArchiveName(name) == Some(now)
      ensures files == Bundle(html, css, js) && name == ArchiveName(now)
    {
      files := Bundle(html, css, js);
      BundleUnpacks(html, css, js, IndexFile);
      name := ArchiveName(now);
      ArchiveNameRoundTrip(now);
    }
  }
}
