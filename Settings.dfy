/**
 * The editor and layout preferences that the click and resize handlers of the
 * playground update: font size, editor theme, fullscreen pane and layout.
 * These are the pure rules; the `Controller` module keeps the current values.
 */
module Settings {

  import opened Wrappers

  // ---------------------------------------------------------------------------
  // Font size

  /** `editorFontSize` when the page starts. */
  const DefaultFontSize := 14

  /** Zoom-out acts only while the size is above this. */
  const MinFontSize := 8

  datatype Zoom = ZoomIn | ZoomOut

  /** One click on a zoom button: zoom-in adds one; zoom-out subtracts one only while the size
      is above the floor, and otherwise leaves it alone. */
  function Zoomed(size: int, z: Zoom): int {
    match z
    case ZoomIn => size + 1
    case ZoomOut => if size > MinFontSize then size - 1 else size
  }

  /** The size after a sequence of zoom clicks. */
  function ZoomedAll(size: int, zs: seq<Zoom>): int
    decreases |zs|
  {
    if zs == [] then size else ZoomedAll(Zoomed(size, zs[0]), zs[1..])
  }

  /** However the zoom buttons are clicked, the size never drops below the floor (nor below
      where it started, if it started under it), and grows by at most one per click. */
  lemma {:induction false} ZoomFloor(size: int, zs: seq<Zoom>)
    ensures ZoomedAll(size, zs) >= (if size < MinFontSize then size else MinFontSize)
    ensures ZoomedAll(size, zs) <= size + |zs|
    decreases |zs|
  {
    if zs != [] {
      ZoomFloor(Zoomed(size, zs[0]), zs[1..]);
    }
  }

  /** From the default size no click sequence reaches a size below 8. */
  lemma DefaultSizeStaysReadable(zs: seq<Zoom>)
    ensures ZoomedAll(DefaultFontSize, zs) >= MinFontSize
  {
    ZoomFloor(DefaultFontSize, zs);
  }

  /** Zoom-out undoes zoom-in from any size at or above the floor. */
  lemma ZoomOutUndoesZoomIn(size: int)
    requires size >= MinFontSize
    ensures Zoomed(Zoomed(size, ZoomIn), ZoomOut) == size
  {
  }

  // ---------------------------------------------------------------------------
  // Editor theme

  datatype Theme = Dark | Light

  /** `toggleEditorTheme`: dark becomes light and light becomes dark. */
  function ToggledTheme(t: Theme): (r: Theme)
    ensures r != t
  {
    if t == Dark then Light else Dark
  }

  /** The ACE theme applied to every editor for a theme (`editorThemes`). */
  function ThemePath(t: Theme): string {
    match t
    case Dark => "ace/theme/tomorrow_night_eighties"
    case Light => "ace/theme/chrome"
  }

  /** Toggling twice restores the theme, and the two themes load different ACE themes. */
  lemma ThemeToggleInvolution(t: Theme)
    ensures ToggledTheme(ToggledTheme(t)) == t
    ensures ThemePath(ToggledTheme(t)) != ThemePath(t)
  {
    assert ThemePath(Dark)[11] != ThemePath(Light)[11];
  }

  // ---------------------------------------------------------------------------
  // Fullscreen

  datatype Pane = EditorPane | PreviewPane

  /** `toggleFullscreen(pane)`: leaving fullscreen when that pane is already fullscreen,
      otherwise making that pane fullscreen, whatever was fullscreen before. */
  function ToggledFullscreen(current: Option<Pane>, pane: Pane): (r: Option<Pane>)
    ensures r == None <==> current == Some(pane)
    ensures r != None ==> r == Some(pane)
  {
    if current == Some(pane) then None else Some(pane)
  }

  /** Toggling the same pane twice from normal view returns to normal view; toggling the other
      pane while one is fullscreen switches straight to it. */
  lemma FullscreenToggleLaws(pane: Pane, other: Pane)
    requires pane != other
    ensures ToggledFullscreen(ToggledFullscreen(None, pane), pane) == None
    ensures ToggledFullscreen(Some(other), pane) == Some(pane)
  {
  }

  // ---------------------------------------------------------------------------
  // Layout

  datatype Layout = Vertical | Horizontal

  /** `LG_BREAKPOINT` of `updateLayout`. */
  const LgBreakpoint := 1024

  /** `updateLayout`'s choice: the user's forced layout when there is one, otherwise vertical on
      viewports narrower than the breakpoint and horizontal on the others. */
  function EffectiveLayout(forced: Option<Layout>, width: int): (l: Layout)
    ensures forced.Some? ==> l == forced.value
    ensures forced.None? ==> (l == Vertical <==> width < LgBreakpoint)
  {
    match forced
    case Some(f) => f
    case None => if width < LgBreakpoint then Vertical else Horizontal
  }

  function Opposite(l: Layout): (r: Layout)
    ensures r != l
  {
    if l == Vertical then Horizontal else Vertical
  }

  /** `handleLayoutToggle`: the forced layout becomes the opposite of the layout on screen. */
  function ForcedByToggle(onScreen: Layout): Option<Layout> {
    Some(Opposite(onScreen))
  }

  /** The layout toggle always flips the effective layout, at any width, and a second toggle
      brings it back. */
  lemma LayoutToggleFlips(forced: Option<Layout>, width: int)
    ensures var before := EffectiveLayout(forced, width);
      var after := EffectiveLayout(ForcedByToggle(before), width);
      after != before && EffectiveLayout(ForcedByToggle(after), width) == before
  {
  }
}
