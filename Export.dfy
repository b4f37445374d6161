/**
 * `downloadZip`: the three files of the exported project and the name of the
 * archive. Building the archive (JSZip) and triggering the download are not
 * modelled; the clock reading is a parameter.
 */
module Export {

  import opened Wrappers
  import opened Text

  const IndexFile := "index.html"
  const StyleFile := "style.css"
  const ScriptFile := "script.js"

  /** The `linkedHtml` template up to the stylesheet link (line feeds and indentation as written). */
  function PageHead(): string {
    "<!DOCTYPE html>\n"
    + Spaces(28) + "<html lang=\"en\">\n"
    + Spaces(28) + "<head>\n"
    + Spaces(32) + "<meta charset=\"UTF-8\">\n"
    + Spaces(32) + "<meta name=\"viewport\" content=\"width=device-width, initial-scale=1.0\">\n"
    + Spaces(32) + "<title>Code Project</title>\n"
    + Spaces(32)
  }

  /** The tag that pulls in the exported stylesheet. */
  function StylesheetLink(): string {
    "<link rel=\"stylesheet\" href=\"" + StyleFile + "\">"
  }

  function AfterLink(): string {
    "\n" + Spaces(28) + "</head>\n" + Spaces(28) + "<body>\n" + Spaces(32)
  }

  function BeforeScript(): string {
    "\n" + Spaces(32)
  }

  /** The tag that loads the exported script. */
  function ScriptTag(): string {
    "<script src=\"" + ScriptFile + "\"></script>"
  }

  function PageTail(): string {
    "\n" + Spaces(28) + "</body>\n" + Spaces(28) + "</html>"
  }

  function PagePieces(html: string): (p: seq<string>)
    ensures |p| == 7
  {
    [PageHead(), StylesheetLink(), AfterLink(), html, BeforeScript(), ScriptTag(), PageTail()]
  }

  // Positions in `PagePieces`.
  const LinkPiece := 1
  const BodyPiece := 3
  const ScriptTagPiece := 5

  /** The exported `index.html`. */
  function IndexHtml(html: string): string {
    Concat(PagePieces(html))
  }

  /** `index.html` links the stylesheet, then holds the HTML buffer verbatim in its body, then
      loads the script, in that order; and the two tags name exactly the other two files. */
  lemma IndexHtmlLayout(html: string)
    ensures var p, page := PagePieces(html), IndexHtml(html);
      && OccursAt(page, StylesheetLink(), PieceOffset(p, LinkPiece))
      && OccursAt(page, html, PieceOffset(p, BodyPiece))
      && OccursAt(page, ScriptTag(), PieceOffset(p, ScriptTagPiece))
      && PieceOffset(p, LinkPiece) + |StylesheetLink()| <= PieceOffset(p, BodyPiece)
      && PieceOffset(p, BodyPiece) + |html| <= PieceOffset(p, ScriptTagPiece)
      && OccursAt(StylesheetLink(), StyleFile, 29)
      && OccursAt(ScriptTag(), ScriptFile, 13)
  {
    var p := PagePieces(html);
    PieceAt(p, LinkPiece);
    PieceAt(p, BodyPiece);
    PieceAt(p, ScriptTagPiece);
    PiecesInOrder(p, LinkPiece, BodyPiece);
    PiecesInOrder(p, BodyPiece, ScriptTagPiece);
    assert StylesheetLink()[29..29 + |StyleFile|] == StyleFile;
    assert ScriptTag()[13..13 + |ScriptFile|] == ScriptFile;
  }

  /** One file of the archive. */
  datatype File = File(name: string, content: string)

  /** The files `downloadZip` adds to the archive, in the order it adds them. */
  function Bundle(html: string, css: string, js: string): seq<File> {
    [File(IndexFile, IndexHtml(html)), File(StyleFile, css), File(ScriptFile, js)]
  }

  /** The content stored under `name`: that of the last file added with that name (adding a
      file under a name already present replaces it). */
  function Lookup(files: seq<File>, name: string): Option<string>
    decreases |files|
  {
    if files == [] then None
    else
      var later := Lookup(files[1..], name);
      if later.Some? then later
      else if files[0].name == name then Some(files[0].content)
      else None
  }

  /** Unpacking the archive gives back the CSS and JS buffers verbatim and the linked page, and
      the archive holds nothing else. */
  lemma BundleUnpacks(html: string, css: string, js: string, name: string)
    ensures Lookup(Bundle(html, css, js), StyleFile) == Some(css)
    ensures Lookup(Bundle(html, css, js), ScriptFile) == Some(js)
    ensures Lookup(Bundle(html, css, js), IndexFile) == Some(IndexHtml(html))
    ensures name != IndexFile && name != StyleFile && name != ScriptFile ==> Lookup(Bundle(html, css, js), name) == None
  {
    var b := Bundle(html, css, js);
    assert IndexFile != StyleFile && IndexFile != ScriptFile && StyleFile != ScriptFile by {
      assert IndexFile[0] != StyleFile[0] && IndexFile[0] != ScriptFile[0];
      assert StyleFile[1] != ScriptFile[1];
    }
    var b1 := b[1..];
    var b2 := b1[1..];
    assert b1 == [File(StyleFile, css), File(ScriptFile, js)];
    assert b2 == [File(ScriptFile, js)];
    assert b2[1..] == [];
    assert Lookup(b2, ScriptFile) == Some(js);
    assert Lookup(b1, ScriptFile) == Some(js);
    assert Lookup(b2, StyleFile) == None;
    assert Lookup(b1, StyleFile) == Some(css);
    assert Lookup(b2, IndexFile) == None;
    assert Lookup(b1, IndexFile) == None;
    if name != IndexFile && name != StyleFile && name != ScriptFile {
      assert Lookup(b2, name) == None;
      assert Lookup(b1, name) == None;
    }
  }

  // ---------------------------------------------------------------------------
  // The timestamped file name

  /** The local-time fields of the `Date` read when the archive is ready, as its getters give
      them: `month` is 0-based (`getMonth()`), the rest as on a clock. */
  datatype LocalTime = LocalTime(year: int, month: int, day: int, hours: int, minutes: int, seconds: int)

  /** What the getters of a JavaScript `Date` can return. */
  predicate ValidTime(t: LocalTime) {
    && 0 <= t.month < 12
    && 1 <= t.day <= 31
    && 0 <= t.hours < 24
    && 0 <= t.minutes < 60
    && 0 <= t.seconds < 60
  }

  /** `${year}${month}${day}-${hours}${minutes}${seconds}`, the month shifted to 1-based and the
      five small fields padded to two digits. The year is not padded. */
  function Timestamp(t: LocalTime): string
    requires ValidTime(t)
  {
    IntToString(t.year) + (Pad2(t.month + 1) + (Pad2(t.day) + ("-" + (Pad2(t.hours) + (Pad2(t.minutes)
    + Pad2(t.seconds))))))
  }

  /** Reads a timestamp back: everything before the last eleven characters is the year; then
      two digits each for month (1-based) and day, a dash, and two digits each for hours,
      minutes and seconds. */
  function ParseTimestamp(s: string): Option<LocalTime> {
    if |s| < 12 then None
    else
      var n := |s|;
      var year := ParseInt(s[..n - 11]);
      var f := s[n - 11..];
      if year.None? || f[4] != '-' || !AllDigits(f[..4]) || !AllDigits(f[5..]) then None
      else
        Some(LocalTime(year.value, ParseDigits(f[0..2]) - 1, ParseDigits(f[2..4]), ParseDigits(f[5..7]),
                       ParseDigits(f[7..9]), ParseDigits(f[9..11])))
  }

  /** Where the fields of a timestamp lie, whatever their text. */
  lemma StampFields(y: string, mo: string, d: string, h: string, mi: string, se: string)
    requires |mo| == 2 && |d| == 2 && |h| == 2 && |mi| == 2 && |se| == 2
    ensures var s := y + (mo + (d + ("-" + (h + (mi + se)))));
      && |s| == |y| + 11
      && s[..|y|] == y
      && var f := s[|y|..];
      && f[..2] == mo && f[2..4] == d && f[4] == '-' && f[5..7] == h && f[7..9] == mi && f[9..11] == se
      && f[..4] == mo + d && f[5..] == h + (mi + se)
  {
    var f := mo + (d + ("-" + (h + (mi + se))));
    assert (y + f)[|y|..] == f;
    assert (y + f)[..|y|] == y;
  }

  lemma AllDigitsConcat(a: string, b: string)
    requires AllDigits(a) && AllDigits(b)
    ensures AllDigits(a + b)
  {
    assert forall i :: 0 <= i < |a + b| ==> (a + b)[i] == if i < |a| then a[i] else b[i - |a|];
  }

  /** The timestamp loses nothing: reading it back gives the clock reading it was made from. */
  lemma TimestampRoundTrip(t: LocalTime)
    requires ValidTime(t)
    ensures ParseTimestamp(Timestamp(t)) == Some(t)
  {
    var y := IntToString(t.year);
    var mo, d, h, mi, se := Pad2(t.month + 1), Pad2(t.day), Pad2(t.hours), Pad2(t.minutes), Pad2(t.seconds);
    StampFields(y, mo, d, h, mi, se);
    ParseIntToString(t.year);
    AllDigitsConcat(mo, d);
    AllDigitsConcat(mi, se);
    AllDigitsConcat(h, mi + se);
  }

  /** The shape of a timestamp with a four-digit year, whatever the digits. */
  lemma StampShape(y: string, mo: string, d: string, h: string, mi: string, se: string)
    requires |y| == 4 && |mo| == 2 && |d| == 2 && |h| == 2 && |mi| == 2 && |se| == 2
    requires AllDigits(y) && AllDigits(mo) && AllDigits(d) && AllDigits(h) && AllDigits(mi) && AllDigits(se)
    ensures var s := y + (mo + (d + ("-" + (h + (mi + se)))));
      && |s| == 15
      && s[8] == '-'
      && forall i :: 0 <= i < 15 && i != 8 ==> IsDigit(s[i])
  {
    var s := y + (mo + (d + ("-" + (h + (mi + se)))));
    AllDigitsConcat(mo, d);
    AllDigitsConcat(y, mo + d);
    AllDigitsConcat(mi, se);
    AllDigitsConcat(h, mi + se);
    assert s == (y + (mo + d)) + ("-" + (h + (mi + se)));
    assert s[..8] == y + (mo + d);
    assert s[9..] == h + (mi + se);
    forall i | 0 <= i < 15 && i != 8
      ensures IsDigit(s[i])
    {
      if i < 8 {
        assert s[i] == s[..8][i];
      } else {
        assert s[i] == s[9..][i - 9];
      }
    }
  }

  lemma FourDigitYear(year: int)
    requires 1000 <= year <= 9999
    ensures |IntToString(year)| == 4
  {
    assert |NatToString(year / 10)| == 3 by {
      assert |NatToString(year / 100)| == 2;
    }
  }

  /** With a four-digit year the timestamp has the fixed shape `YYYYMMDD-HHMMSS`. */
  lemma TimestampShape(t: LocalTime)
    requires ValidTime(t) && 1000 <= t.year <= 9999
    ensures var s := Timestamp(t);
      && |s| == 15
      && s[8] == '-'
      && forall i :: 0 <= i < 15 && i != 8 ==> IsDigit(s[i])
  {
    FourDigitYear(t.year);
    StampShape(IntToString(t.year), Pad2(t.month + 1), Pad2(t.day), Pad2(t.hours), Pad2(t.minutes), Pad2(t.seconds));
  }

  const ArchivePrefix := "code-project-"
  const ArchiveSuffix := ".zip"

  /** The name the archive is downloaded under. */
  function ArchiveName(t: LocalTime): string
    requires ValidTime(t)
  {
    ArchivePrefix + Timestamp(t) + ArchiveSuffix
  }

  /** The clock reading an archive name was made from, if it has the archive's prefix and
      suffix. */
  function ParseArchiveName(name: string): Option<LocalTime> {
    var p, q := |ArchivePrefix|, |ArchiveSuffix|;
    if |name| >= p + q && name[..p] == ArchivePrefix && name[|name| - q..] == ArchiveSuffix then
      ParseTimestamp(name[p..|name| - q])
    else None
  }

  lemma Framed(p: string, x: string, q: string)
    ensures var s := p + x + q;
      |s| == |p| + |x| + |q| && s[..|p|] == p && s[|s| - |q|..] == q && s[|p|..|s| - |q|] == x
  {
    var s := p + x + q;
    assert s[..|p|] == p;
    assert s[|s| - |q|..] == q;
    assert s[|p|..|s| - |q|] == x;
  }

  lemma ArchiveNameFramesStamp(ts: string)
    ensures var name := ArchivePrefix + ts + ArchiveSuffix;
      && OccursAt(name, ArchivePrefix, 0)
      && OccursAt(name, ArchiveSuffix, |name| - |ArchiveSuffix|)
      && ParseArchiveName(name) == ParseTimestamp(ts)
  {
    Framed(ArchivePrefix, ts, ArchiveSuffix);
  }

  /** The archive name starts with `code-project-`, ends with `.zip`, and the timestamp between
      them reads back as the clock reading. */
  lemma ArchiveNameRoundTrip(t: LocalTime)
    requires ValidTime(t)
    ensures var name := ArchiveName(t);
      && OccursAt(name, ArchivePrefix, 0)
      && OccursAt(name, ArchiveSuffix, |name| - |ArchiveSuffix|)
      && ParseArchiveName(name) == Some(t)
  {
    ArchiveNameFramesStamp(Timestamp(t));
    TimestampRoundTrip(t);
  }
}
