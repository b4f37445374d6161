/**
 * The small pieces of JavaScript string behaviour the playground relies on:
 * `String(n)` for integers, `padStart`, `Array.prototype.join`, and a way to
 * say that one string sits verbatim inside another.
 */
module Text {

  import opened Wrappers

  /** `n` copies of `c`. */
  function Repeat(c: char, n: nat): (r: string)
    ensures |r| == n
    ensures forall i :: 0 <= i < n ==> r[i] == c
  {
    if n == 0 then [] else [c] + Repeat(c, n - 1)
  }

  /** The indentation of a template-literal line. */
  function Spaces(n: nat): string {
    Repeat(' ', n)
  }

  /** `piece` appears verbatim in `s`, starting at index `k`. */
  predicate OccursAt(s: string, piece: string, k: nat) {
    k + |piece| <= |s| && s[k..k + |piece|] == piece
  }

  lemma OccursAtStart(x: string, t: string)
    ensures OccursAt(x + t, x, 0)
  {
    assert (x + t)[..|x|] == x;
  }

  lemma OccursShifted(p: string, q: string, x: string, k: nat)
    requires OccursAt(q, x, k)
    ensures OccursAt(p + q, x, |p| + k)
  {
    assert (p + q)[|p| + k..|p| + k + |x|] == q[k..k + |x|];
  }

  /** A piece found inside a string found inside `s` is found inside `s`. */
  lemma OccursWithin(s: string, whole: string, k: nat, x: string, j: nat)
    requires OccursAt(s, whole, k)
    requires OccursAt(whole, x, j)
    ensures OccursAt(s, x, k + j)
  {
    forall n | 0 <= n < |x|
      ensures s[k + j + n] == x[n]
    {
      assert s[k..k + |whole|][j + n] == whole[j + n];
      assert whole[j..j + |x|][n] == x[n];
    }
    assert s[k + j..k + j + |x|] == x;
  }

  lemma MiddleOf(p: string, x: string, q: string)
    ensures OccursAt(p + (x + q), x, |p|)
  {
    OccursAtStart(x, q);
    OccursShifted(p, x + q, x, 0);
  }

  // ---------------------------------------------------------------------------
  // Template literals: fixed text and interpolated values, one after another

  /** The pieces of a template literal, written out one after another. */
  function Concat(pieces: seq<string>): string {
    if |pieces| == 0 then "" else pieces[0] + Concat(pieces[1..])
  }

  /** Where piece `k` starts in `Concat(pieces)`: the length of all pieces before it. */
  function PieceOffset(pieces: seq<string>, k: nat): nat
    requires k <= |pieces|
  {
    |Concat(pieces[..k])|
  }

  lemma {:induction false} ConcatAppend(p: seq<string>, q: seq<string>)
    ensures Concat(p + q) == Concat(p) + Concat(q)
  {
    if |p| > 0 {
      assert (p + q)[1..] == p[1..] + q;
      ConcatAppend(p[1..], q);
    } else {
      assert p + q == q;
    }
  }

  /** Dropping the first piece moves every later offset back by its length. */
  lemma OffsetStep(pieces: seq<string>, k: nat)
    requires 0 < k <= |pieces|
    ensures PieceOffset(pieces, k) == |pieces[0]| + PieceOffset(pieces[1..], k - 1)
  {
    assert pieces[..k][1..] == pieces[1..][..k - 1];
  }

  /** Every piece appears verbatim in the concatenation, at its offset. */
  lemma {:induction false} PieceAt(pieces: seq<string>, k: nat)
    requires k < |pieces|
    ensures OccursAt(Concat(pieces), pieces[k], PieceOffset(pieces, k))
  {
    if k == 0 {
      OccursAtStart(pieces[0], Concat(pieces[1..]));
    } else {
      var rest := pieces[1..];
      assert rest[k - 1] == pieces[k];
      PieceAt(rest, k - 1);
      OccursShifted(pieces[0], Concat(rest), pieces[k], PieceOffset(rest, k - 1));
      OffsetStep(pieces, k);
    }
  }

  /** Text found inside one piece is found in the concatenation, shifted by the piece's offset. */
  lemma PieceWithin(pieces: seq<string>, k: nat, x: string, j: nat)
    requires k < |pieces| && OccursAt(pieces[k], x, j)
    ensures OccursAt(Concat(pieces), x, PieceOffset(pieces, k) + j)
  {
    PieceAt(pieces, k);
    OccursWithin(Concat(pieces), pieces[k], PieceOffset(pieces, k), x, j);
  }

  /** An earlier piece ends before a later one starts. */
  lemma PiecesInOrder(pieces: seq<string>, k: nat, m: nat)
    requires k < m <= |pieces|
    ensures PieceOffset(pieces, k) + |pieces[k]| <= PieceOffset(pieces, m)
  {
    assert pieces[..m] == pieces[..k] + ([pieces[k]] + pieces[k + 1..m]);
    ConcatAppend(pieces[..k], [pieces[k]] + pieces[k + 1..m]);
    assert ([pieces[k]] + pieces[k + 1..m])[1..] == pieces[k + 1..m];
  }

  // ---------------------------------------------------------------------------
  // Decimal digits: String(n) and its inverse

  predicate IsDigit(c: char) {
    '0' <= c <= '9'
  }

  predicate AllDigits(s: string) {
    forall i :: 0 <= i < |s| ==> IsDigit(s[i])
  }

  function DigitValue(c: char): nat
    requires IsDigit(c)
  {
    c as int - '0' as int
  }

  function DigitChar(d: nat): (c: char)
    requires d < 10
    ensures IsDigit(c) && DigitValue(c) == d
  {
    ('0' as int + d) as char
  }

  /** JavaScript's `String(n)` for a non-negative integer: its shortest decimal form. */
  function NatToString(n: nat): (s: string)
    ensures |s| >= 1 && AllDigits(s)
    ensures |s| > 1 ==> s[0] != '0'
    ensures n < 10 <==> |s| == 1
    decreases n
  {
    if n < 10 then [DigitChar(n)] else NatToString(n / 10) + [DigitChar(n % 10)]
  }

  /** The value of a string of decimal digits (the empty string reads as 0). */
  function ParseDigits(s: string): nat
    requires AllDigits(s)
  {
    if s == [] then 0 else 10 * ParseDigits(s[..|s| - 1]) + DigitValue(s[|s| - 1])
  }

  /** Reading back `String(n)` gives `n`: the decimal form loses nothing. */
  lemma {:induction false} ParseNatToString(n: nat)
    ensures ParseDigits(NatToString(n)) == n
  {
    if n >= 10 {
      var s := NatToString(n);
      assert s[..|s| - 1] == NatToString(n / 10);
      ParseNatToString(n / 10);
    }
  }

  /** JavaScript's `String(i)` for any integer: a minus sign before the magnitude when negative. */
  function IntToString(i: int): (s: string)
    ensures |s| >= 1
    ensures i < 0 <==> s[0] == '-'
  {
    if i < 0 then "-" + NatToString(-i) else NatToString(i)
  }

  /** The integer a decimal string with an optional leading minus sign denotes, if it is one. */
  function ParseInt(s: string): Option<int> {
    if |s| >= 2 && s[0] == '-' && AllDigits(s[1..]) then Some(0 - ParseDigits(s[1..]) as int)
    else if |s| >= 1 && AllDigits(s) then Some(ParseDigits(s))
    else None
  }

  lemma ParseIntToString(i: int)
    ensures ParseInt(IntToString(i)) == Some(i)
  {
    var s := IntToString(i);
    if i < 0 {
      assert s[1..] == NatToString(-i);
      ParseNatToString(-i);
    } else {
      ParseNatToString(i);
    }
  }

  // ---------------------------------------------------------------------------
  // String.prototype.padStart with a one-character pad string

  /** `s.padStart(width, fill)`: `s` unchanged when it is already `width` long, otherwise
      prefixed with enough copies of `fill` to make it exactly `width` long. */
  function PadStart(s: string, width: nat, fill: char): (r: string)
    ensures |s| >= width ==> r == s
    ensures |s| < width ==> |r| == width
    ensures |r| >= |s| && r[|r| - |s|..] == s
    ensures forall i :: 0 <= i < |r| - |s| ==> r[i] == fill
  {
    if |s| >= width then s else Repeat(fill, width - |s|) + s
  }

  /** `String(n).padStart(2, '0')` for a value below 100: exactly two digits that read back as `n`. */
  function Pad2(n: nat): (r: string)
    requires n < 100
    ensures |r| == 2 && AllDigits(r) && ParseDigits(r) == n
  {
    var s := NatToString(n);
    ParseNatToString(n);
    var r := PadStart(s, 2, '0');
    assert n < 10 ==> r == ['0'] + s && r[..1] == "0";
    r
  }

  // ---------------------------------------------------------------------------
  // Array.prototype.join and its inverse

  /** `parts.join(sep)`. */
  function Join(parts: seq<string>, sep: string): string {
    if |parts| == 0 then ""
    else if |parts| == 1 then parts[0]
    else parts[0] + sep + Join(parts[1..], sep)
  }

  /** The index of the first `c` in `s`. */
  function IndexOf(s: string, c: char): (i: nat)
    requires c in s
    ensures i < |s| && s[i] == c && c !in s[..i]
  {
    if s[0] == c then 0 else 1 + IndexOf(s[1..], c)
  }

  /** `s.split(sep)` for a one-character separator. */
  function Split(s: string, sep: char): (r: seq<string>)
    ensures |r| >= 1
    decreases |s|
  {
    if sep !in s then [s]
    else
      var i := IndexOf(s, sep);
      [s[..i]] + Split(s[i + 1..], sep)
  }

  /** Splitting a joined list at the separator gives the list back, as long as no part
      contains the separator itself. */
  lemma {:induction false} SplitJoin(parts: seq<string>, sep: char)
    requires |parts| >= 1
    requires forall k :: 0 <= k < |parts| ==> sep !in parts[k]
    ensures Split(Join(parts, [sep]), sep) == parts
  {
    if |parts| > 1 {
      var p := parts[0];
      var rest := Join(parts[1..], [sep]);
      var s := Join(parts, [sep]);
      assert s == p + [sep] + rest;
      assert s[|p|] == sep;
      var i := IndexOf(s, sep);
      assert s[..i] == p;
      assert s[i + 1..] == rest;
      SplitJoin(parts[1..], sep);
    }
  }
}
