# Live HTML playground: a Dafny model of the page controller

The playground is a browser page with three editors (HTML, CSS, JavaScript), a
preview iframe and a console panel. All of its logic lives in one handler
script, `assets/js/main.js`. This project models that script with the DOM, the
editor widget, the timers and the iframe taken away. What is left falls into two
parts.

- **The controller state.** These are the module-level variables that the
  event handlers update in place: font size, editor theme, fullscreen pane,
  forced layout and the shared debounce timer. Alongside them are the three
  editor buffers, the entries of the console panel and the iframe's `srcdoc`.
  `Controller.Playground` is a class with these fields. There is one method
  per handler, and each method states the new state in terms of the pure rules
  below. `Debounce.Debouncer` is the timer slot.
- **The pure rules.**
  - `Preview` builds the preview document (the `combinedHtml` template,
    character for character).
  - `ConsoleLog` formats the arguments of a log message and decides which
    `message` events are accepted.
  - `Export` builds the exported files, the `YYYYMMDD-HHMMSS` timestamp and
    the archive name.
  - `Settings` holds the rules for zoom, theme, fullscreen and layout.
  - `Text` models JavaScript's `String(n)`, `padStart` and `join`, and their
    inverses.

Modules: `Wrappers` (Option), `Text`, `Preview`, `ConsoleLog`, `Export`,
`Settings`, `Debounce`, `Controller`, one per file.

Details of the code the model keeps:

- An error argument is recognised by its `__error` property (`main.js:255`,
  `main.js:318`).
- An error argument always renders with a line break after its message, even
  when it has no stack (`main.js:318`). `ConsoleLog.ErrorArgAlwaysBreaks`
  proves this.
- One debounce timer variable is shared by every function `debounce` wraps
  (`main.js:49`, `main.js:73-74`). A call of any wrapper cancels whatever call
  is pending. `Debounce` models this single slot. Only one wrapper exists
  (`main.js:569`).
- The preview template in `main.js:279-299` has no library reference: its
  head holds only the meta tags, the interceptor and the inline style block.

## Model

| member | source | states |
|---|---|---|
| `Text.NatToString` | assets/js/main.js:401-406 | `String(n)` of a non-negative integer is a non-empty string of digits without a leading zero, one character long exactly when `n < 10` |
| `Text.ParseNatToString` | assets/js/main.js:401-406 | reading the decimal form back gives the number: `String(n)` loses nothing |
| `Text.IntToString` | assets/js/main.js:400 | `String(year)` starts with a minus sign exactly when the year is negative |
| `Text.ParseIntToString` | assets/js/main.js:406 | the year's text, sign included, reads back as the year |
| `Text.PadStart` | assets/js/main.js:401 | `padStart(width, fill)` leaves a long enough string alone; otherwise the result is exactly `width` long, ends with the original and has only `fill` before it |
| `Text.Pad2` | assets/js/main.js:401-405 | a field below 100 padded with `'0'` is exactly two digits that read back as the field |
| `Text.SplitJoin` | assets/js/main.js:316-322 | splitting a `join(' ')` at spaces gives the parts back when no part contains a space |
| `Text.PieceAt` | assets/js/main.js:279-299 | every piece of a template literal appears verbatim in the result, at the summed length of the pieces before it |
| `Text.PiecesInOrder` | assets/js/main.js:279-299 | an earlier piece of a template literal ends before a later one starts |
| `Text.PieceWithin` | assets/js/main.js:279-299 | text found at some position inside one piece of a template literal is found in the whole result, shifted by that piece's offset |
| `Preview.PreviewLayout` | assets/js/main.js:279-299 | the preview document holds, in this order and without overlap, the interceptor script, the `<style>` block, the HTML buffer and the guarded script |
| `Preview.PreviewCssVerbatim` | assets/js/main.js:286 | the CSS buffer sits verbatim right after `<style>` |
| `Preview.PreviewJsVerbatim` | assets/js/main.js:290-296 | the JS buffer sits verbatim inside `try {` … `} catch (e) { console.error(e); }` |
| `ConsoleLog.ErrorArgAlwaysBreaks` | assets/js/main.js:318 | for every message, an `__error` object renders as the message followed by a line break, and without a stack the text ends right after that line break |
| `ConsoleLog.ErrorArgLines` | assets/js/main.js:318 | for a single-line message, the first line of the rendered `__error` object gives the message back and the rest gives the stack, or nothing when there is none |
| `ConsoleLog.FormattedArgs` | assets/js/main.js:316-321 | one rendered text per argument, in argument order |
| `ConsoleLog.FormatArgsSplits` | assets/js/main.js:316-322 | the rendered arguments are joined with exactly one space, so splitting recovers them when none contains a space; no arguments give the empty line |
| `ConsoleLog.SpoofedMessageIgnored` | assets/js/main.js:549-555 | a message from any window other than the preview iframe's, or without the `iframe-console` tag, leaves the console panel unchanged |
| `ConsoleLog.AcceptedMessageAppendsOne` | assets/js/main.js:549-555 | the panel grows exactly when the message is accepted and carries an argument list; it then grows by one entry at the end, rendered from that message, and the earlier entries are kept |
| `ConsoleLog.AcceptedEntries` | assets/js/main.js:549-555 | a stream of messages contributes at most one entry per message |
| `ConsoleLog.MessagesAppendInOrder` | assets/js/main.js:329 | handling a stream of messages keeps the earlier entries and appends the accepted ones in arrival order |
| `Export.IndexHtmlLayout` | assets/js/main.js:379-391 | `index.html` links `style.css`, then holds the HTML buffer verbatim, then loads `script.js`, in that order |
| `Export.BundleUnpacks` | assets/js/main.js:393-395 | the archive gives back `style.css` as the CSS buffer and `script.js` as the JS buffer, verbatim, and `index.html` as the linked page; no other name is in it |
| `Export.TimestampRoundTrip` | assets/js/main.js:399-406 | the timestamp reads back as the clock reading it was made from, the 1-based month turned back into `getMonth()`'s 0-based one |
| `Export.TimestampShape` | assets/js/main.js:399-406 | with a four-digit year the timestamp has the form `YYYYMMDD-HHMMSS`: 15 characters, a dash at index 8, digits everywhere else |
| `Export.ArchiveNameRoundTrip` | assets/js/main.js:407 | the archive name is `code-project-`, the timestamp, then `.zip`, and it reads back as the clock reading |
| `Settings.ZoomFloor` | assets/js/main.js:531-541 | under any sequence of zoom clicks the size never falls below 8 (or below its start, if it started under 8), and it grows by at most one per click |
| `Settings.DefaultSizeStaysReadable` | assets/js/main.js:51 | from the initial size 14, no sequence of zoom clicks reaches a size below 8 |
| `Settings.ZoomOutUndoesZoomIn` | assets/js/main.js:531-541 | from any size of at least 8, zoom-out undoes zoom-in |
| `Settings.ToggledTheme` | assets/js/main.js:179 | the theme toggle always changes the theme |
| `Settings.ThemeToggleInvolution` | assets/js/main.js:54-57 | toggling twice restores the theme, and the two themes load different editor themes |
| `Settings.ToggledFullscreen` | assets/js/main.js:423-454 | toggling a pane leaves fullscreen exactly when that pane was fullscreen; otherwise that pane becomes fullscreen |
| `Settings.FullscreenToggleLaws` | assets/js/main.js:423-454 | toggling one pane twice from normal view returns to normal view; toggling the other pane switches straight to it |
| `Settings.EffectiveLayout` | assets/js/main.js:118-120 | the forced layout wins when set; otherwise the layout is vertical exactly when the width is below 1024 |
| `Settings.Opposite` | assets/js/main.js:161 | the toggle's choice always differs from the layout on screen |
| `Settings.LayoutToggleFlips` | assets/js/main.js:159-163 | the layout toggle flips the effective layout at any width, and a second toggle brings it back |
| `Debounce.BurstKeepsLast` | assets/js/main.js:71-78 | after any non-empty burst of calls exactly one call is pending, the last one with its arguments, and nothing has run |
| `Debounce.BurstThenElapseRunsOnce` | assets/js/main.js:71-78 | a burst followed by the delay runs the wrapped function exactly once, with the last call's arguments; a second elapse runs nothing |
| `Debounce.RunsBounded` | assets/js/main.js:71-78 | debouncing never runs more calls than were made (plus one already pending), nor more than the delay elapsed, and it runs only calls that were made |
| `Debounce.Debouncer.constructor` | assets/js/main.js:49 | nothing is pending at first |
| `Debounce.Debouncer.Trigger` | assets/js/main.js:73-74 | a call cancels whatever was pending on the shared slot and leaves only itself pending |
| `Debounce.Debouncer.Elapse` | assets/js/main.js:74-76 | when the delay elapses, the pending call runs and the slot is emptied |
| `Controller.Playground.constructor` | assets/js/main.js:564-574 | at start-up each buffer holds its default or `""`, the size is 14, the theme dark, there is no fullscreen pane or forced layout, the layout follows the width, the panel is empty and a first preview is composed |
| `Controller.Playground.UpdatePreview` | assets/js/main.js:239-302 | a preview run empties the console panel and sets `srcdoc` to the document composed from the current buffers |
| `Controller.Playground.ClearConsole` | assets/js/main.js:529 | the clear button empties the panel and changes nothing else |
| `Controller.Playground.OnMessage` | assets/js/main.js:549-555 | the panel becomes its old value with the message's entry appended when the message is accepted, and stays as it was otherwise |
| `Controller.Playground.Edit` | assets/js/main.js:569-572 | an editor change sets that buffer, leaves the others, and leaves exactly this change pending on the timer |
| `Controller.Playground.TimerElapses` | assets/js/main.js:74-76 | when the delay elapses with a call pending, the preview runs on the buffers as they are now; with none pending nothing changes; afterwards nothing is pending |
| `Controller.Playground.FormatCode` | assets/js/main.js:337-357 | with an active editor tab and formatted text, the buffer takes that text and counts as an edit; on the console tab, with no active tab, or when the formatter throws, the buffers and the timer are unchanged |
| `Controller.Playground.ZoomInClicked` | assets/js/main.js:531-534 | zoom-in adds one to the size and keeps it at least 8 |
| `Controller.Playground.ZoomOutClicked` | assets/js/main.js:536-541 | zoom-out subtracts one only above 8, so the size stays at least 8 |
| `Controller.Playground.ToggleEditorTheme` | assets/js/main.js:178-179 | the theme button flips the theme |
| `Controller.Playground.ToggleFullscreen` | assets/js/main.js:423-458 | a fullscreen button toggles that pane's fullscreen state; the layout re-applied is the same layout |
| `Controller.Playground.UpdateLayout` | assets/js/main.js:118-120 | the page shows the effective layout |
| `Controller.Playground.ToggleLayout` | assets/js/main.js:159-163 | the forced layout becomes the opposite of the layout on screen, so the layout on screen flips |
| `Controller.Playground.Resize` | assets/js/main.js:543-546 | a resize drops the forced layout and the new width decides the layout |
| `Controller.Playground.DownloadZip` | assets/js/main.js:373-417 | the files are exactly the bundle of the three buffers and the name is exactly `code-project-<timestamp>.zip` for the clock reading; unpacked, the archive gives back the CSS and JS buffers verbatim and the linked page, and the name reads back as the clock reading |

## Left out

- The DOM is not modelled. This covers class lists, inline styles, icon
  markup, Lucide, metadata and footer population, tab switching, the
  responsive width buttons, scrolling the panel, and the tab-size selector.
  None of these holds logic beyond setting properties.
- The drag resizer (`main.js:475-514`) is left out. It divides pixel offsets
  in floating point.
- The interceptor script's own text (`main.js:248-277`) is not reproduced.
  The same goes for everything that runs inside the iframe: `postMessage`,
  the serialisation of arguments and the error listeners. The preview
  document takes the interceptor's text as a parameter. The controller gets
  it at construction.
- `JSON.stringify` and `String(...)` of arbitrary values are not modelled. An
  argument arrives already classified: an `__error` object, another object
  with its pretty JSON text, or anything else with its string form.
- Real time is not modelled. The 500 ms debounce delay and the 50 ms editor
  resize are replaced by a logical "the delay elapsed" step.
- Prettier (`formatCode`) is a foreign call. Its result is a parameter:
  the formatted text, or nothing when it throws.
- JSZip, Blob and the download link are left out. The model stops at the
  files put into the archive and the archive's name. The clock reading is a
  parameter.
- The editor widget (`assets/js/editor.js`) is left out, beyond the rule
  that each buffer starts as its configured default or `""`. The default
  texts themselves (`assets/js/config.js`) are a parameter.
- `Controller.Playground.FormatCode`: the editor reports a `setValue` as
  possibly two change events (removal and insertion). The model treats it
  as one edit carrying the formatted text. With the shared timer only the
  last event matters.
- `ConsoleLog.FormatArgsSplits` recovers the arguments only when no rendered
  argument contains a space. When one does, the joined line is ambiguous.
- The timestamp shape `YYYYMMDD-HHMMSS` holds only for four-digit years
  (`Export.TimestampShape`). Other years are written unpadded, as the code
  writes them; `Export.TimestampRoundTrip` covers every year.
