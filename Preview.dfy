/**
 * The preview compositor: `updatePreview` builds one HTML document from the
 * three editor buffers and the console-interceptor script and loads it into
 * the sandboxed iframe through `srcdoc`.
 *
 * The fixed text below is the template literal of `updatePreview`, character
 * for character (line feeds and the indentation of each template line).
 */
module Preview {

  import opened Text

  /** From the template's opening backtick up to where the interceptor is interpolated. */
  function DocumentHead(): string {
    "\n"
    + Spaces(12) + "<!DOCTYPE html>\n"
    + Spaces(12) + "<html lang=\"en\">\n"
    + Spaces(12) + "<head>\n"
    + Spaces(16) + "<meta charset=\"UTF-8\">\n"
    + Spaces(16) + "<meta name=\"viewport\" content=\"width=device-width, initial-scale=1.0\">\n"
    + Spaces(16)
  }

  /** Between the interceptor and the inline style block. */
  function AfterInterceptor(): string {
    "\n" + Spaces(16)
  }

  /** The inline style block holding the CSS buffer. */
  function StyleBlock(css: string): string {
    StyleOpen() + (css + StyleClose())
  }

  function StyleOpen(): string {
    "<style>"
  }

  function StyleClose(): string {
    "</style>"
  }

  /** Between the style block and the HTML buffer: the end of the head, the start of the body. */
  function AfterStyle(): string {
    "\n" + Spaces(12) + "</head>\n" + Spaces(12) + "<body>\n" + Spaces(16)
  }

  /** Between the HTML buffer and the guarded user script. */
  function AfterHtml(): string {
    "\n" + Spaces(16) + "<script>\n" + Spaces(20)
  }

  /** The user's script inside `try { … } catch (e) { console.error(e); }`, so that an exception
      it throws reaches the (intercepted) console instead of halting the document. */
  function GuardedScript(js: string): string {
    TryOpen() + (js + CatchClause())
  }

  function TryOpen(): string {
    "try {\n" + Spaces(24)
  }

  function CatchClause(): string {
    "\n" + Spaces(20) + "} catch (e) {\n" + Spaces(24) + "console.error(e);\n" + Spaces(20) + "}"
  }

  /** From the end of the guarded script to the template's closing backtick. */
  function DocumentTail(): string {
    "\n" + Spaces(16) + "</script>\n" + Spaces(12) + "</body>\n" + Spaces(12) + "</html>\n" + Spaces(8)
  }

  /** The template of `updatePreview` as its nine pieces: fixed text alternating with the four
      interpolated values. */
  function PreviewPieces(interceptor: string, css: string, html: string, js: string): (p: seq<string>)
    ensures |p| == 9
  {
    [DocumentHead(), interceptor, AfterInterceptor(), StyleBlock(css), AfterStyle(), html, AfterHtml(),
     GuardedScript(js), DocumentTail()]
  }

  // Positions of the interpolated pieces in `PreviewPieces`.
  const InterceptorPiece := 1
  const StylePiece := 3
  const HtmlPiece := 5
  const ScriptPiece := 7

  /** The `combinedHtml` document of `updatePreview`, assigned to the iframe's `srcdoc`. */
  function ComposePreview(interceptor: string, css: string, html: string, js: string): string {
    Concat(PreviewPieces(interceptor, css, html, js))
  }

  /** The composed document holds, in this order and without overlap, the interceptor, the
      style block, the HTML buffer and the guarded script. */
  lemma PreviewLayout(interceptor: string, css: string, html: string, js: string)
    ensures var p, doc := PreviewPieces(interceptor, css, html, js), ComposePreview(interceptor, css, html, js);
      && OccursAt(doc, interceptor, PieceOffset(p, InterceptorPiece))
      && OccursAt(doc, StyleBlock(css), PieceOffset(p, StylePiece))
      && OccursAt(doc, html, PieceOffset(p, HtmlPiece))
      && OccursAt(doc, GuardedScript(js), PieceOffset(p, ScriptPiece))
      && PieceOffset(p, InterceptorPiece) + |interceptor| <= PieceOffset(p, StylePiece)
      && PieceOffset(p, StylePiece) + |StyleBlock(css)| <= PieceOffset(p, HtmlPiece)
      && PieceOffset(p, HtmlPiece) + |html| <= PieceOffset(p, ScriptPiece)
  {
    var p := PreviewPieces(interceptor, css, html, js);
    PieceAt(p, InterceptorPiece);
    PieceAt(p, StylePiece);
    PieceAt(p, HtmlPiece);
    PieceAt(p, ScriptPiece);
    PiecesInOrder(p, InterceptorPiece, StylePiece);
    PiecesInOrder(p, StylePiece, HtmlPiece);
    PiecesInOrder(p, HtmlPiece, ScriptPiece);
  }

  /** The CSS buffer sits verbatim between `<style>` and `</style>`. */
  lemma PreviewCssVerbatim(interceptor: string, css: string, html: string, js: string)
    ensures var p := PreviewPieces(interceptor, css, html, js);
      OccursAt(ComposePreview(interceptor, css, html, js), css, PieceOffset(p, StylePiece) + |StyleOpen()|)
  {
    MiddleOf(StyleOpen(), css, StyleClose());
    PieceWithin(PreviewPieces(interceptor, css, html, js), StylePiece, css, |StyleOpen()|);
  }

  /** The JS buffer sits verbatim inside the `try` block, before its `catch` clause. */
  lemma PreviewJsVerbatim(interceptor: string, css: string, html: string, js: string)
    ensures var p := PreviewPieces(interceptor, css, html, js);
      OccursAt(ComposePreview(interceptor, css, html, js), js, PieceOffset(p, ScriptPiece) + |TryOpen()|)
  {
    MiddleOf(TryOpen(), js, CatchClause());
    PieceWithin(PreviewPieces(interceptor, css, html, js), ScriptPiece, js, |TryOpen()|);
  }
}
