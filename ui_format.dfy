/**
 * The output formats of the progress reporter: the table that picks a
 * formatter from the `format` argument, and the shape of the line the text
 * formatter draws.
 *
 * The humanised byte count, the elapsed time and the transfer rate that the
 * text line shows are computed with floating point; here they are opaque
 * strings handed in by the caller.
 */
module UiFormat {
  import opened Wrappers

  /** The `format` name that selects the text formatter. */
  const FormatText: string := "human"
  /** The `format` name that selects the JSON formatter. */
  const FormatJson: string := "json"
  /** Width of the text progress line when none is given. */
  const DefaultWidth: int := 79

  /** The two output formats. */
  datatype FormatKind = TextFormat | JsonFormat

  /**
   * The FORMATTER table: no format and "human" give the text formatter,
   * "json" gives the JSON formatter, and any other key is missing from the
   * table (a KeyError when the progress bar is built).
   */
  function Formatter(key: Option<string>): (r: Option<FormatKind>)
    ensures r == Some(TextFormat) <==> key == None || key == Some(FormatText)
    ensures r == Some(JsonFormat) <==> key == Some(FormatJson)
    ensures r == None <==> key != None && key != Some(FormatText) && key != Some(FormatJson)
  {
    match key
    case None => Some(TextFormat)
    case Some(name) =>
      if name == FormatText then Some(TextFormat)
      else if name == FormatJson then Some(JsonFormat)
      else None
  }

  /** Python truthiness of the optional total size: neither None nor 0. */
  predicate HasSize(size: Option<int>) {
    size.Some? && size.value != 0
  }

  /** Python truthiness of the optional phase text: neither None nor "". */
  predicate HasPhase(phase: Option<string>) {
    phase.Some? && phase.value != ""
  }

  function Max(a: int, b: int): int {
    if a >= b then a else b
  }

  /** `n` blanks, none when `n` is not positive. */
  function Spaces(n: int): (r: string)
    ensures |r| == Max(n, 0)
    ensures forall k :: 0 <= k < |r| ==> r[k] == ' '
  {
    seq(Max(n, 0), _ => ' ')
  }

  /** `str.ljust(width, " ")`: the text, then blanks up to `width` characters. */
  function LJust(s: string, width: int): (r: string)
    ensures |r| == Max(|s|, width)
    ensures r[..|s|] == s
    ensures forall k :: |s| <= k < |r| ==> r[k] == ' '
  {
    s + Spaces(width - |s|)
  }

  /** Right alignment in a field of `width` characters, as `{:3d}` does. */
  function RJust(s: string, width: int): (r: string)
    ensures |r| == Max(|s|, width)
    ensures r[|r| - |s|..] == s
    ensures forall k :: 0 <= k < |r| - |s| ==> r[k] == ' '
  {
    Spaces(width - |s|) + s
  }

  predicate IsDigit(c: char) {
    '0' <= c <= '9'
  }

  predicate AllDigits(s: string) {
    forall k :: 0 <= k < |s| ==> IsDigit(s[k])
  }

  function DigitChar(d: int): (c: char)
    requires 0 <= d < 10
    ensures IsDigit(c)
  {
    ('0' as int + d) as char
  }

  function DigitValue(c: char): nat
    requires IsDigit(c)
  {
    c as int - '0' as int
  }

  /** The decimal digits of `n`, without leading zeros. */
  function Decimal(n: nat): (r: string)
    ensures |r| >= 1 && AllDigits(r)
    ensures r[0] == '0' ==> n == 0
    ensures n < 100 ==> |r| <= 2
    ensures n <= 999 ==> |r| <= 3
  {
    if n < 10 then [DigitChar(n)] else Decimal(n / 10) + [DigitChar(n % 10)]
  }

  /** The number a string of decimal digits stands for. */
  function ParseDecimal(s: string): nat
    requires AllDigits(s)
  {
    if s == [] then 0 else 10 * ParseDecimal(s[..|s| - 1]) + DigitValue(s[|s| - 1])
  }

  /** Reading back the digits of `n` gives `n`. */
  lemma {:induction false} DecimalRoundTrip(n: nat)
    ensures ParseDecimal(Decimal(n)) == n
  {
    var s := Decimal(n);
    if n >= 10 {
      assert s[..|s| - 1] == Decimal(n / 10);
      DecimalRoundTrip(n / 10);
    }
  }

  function TrimLeadingSpaces(s: string): (r: string)
    ensures |r| <= |s|
  {
    if s != [] && s[0] == ' ' then TrimLeadingSpaces(s[1..]) else s
  }

  lemma {:induction false} TrimSpacesBefore(k: int, t: string)
    requires t == [] || t[0] != ' '
    ensures TrimLeadingSpaces(Spaces(k) + t) == t
  {
    if k > 0 {
      assert (Spaces(k) + t)[1..] == Spaces(k - 1) + t;
      TrimSpacesBefore(k - 1, t);
    } else {
      assert Spaces(k) + t == t;
    }
  }

  /**
   * The progress field of the text line: the percent value clamped at 0,
   * right-aligned in three columns and followed by "%", when the size is
   * known and not 0; "----" otherwise.
   */
  function ProgressField(size: Option<int>, value: int): (r: string)
    ensures |r| >= 4
    ensures !HasSize(size) ==> r == "----"
    ensures HasSize(size) ==> r[|r| - 1] == '%'
    ensures HasSize(size) && value <= 999 ==> |r| == 4
  {
    if HasSize(size) then RJust(Decimal(Max(0, value)), 3) + "%" else "----"
  }

  /**
   * A percent field is blanks, then decimal digits with no leading zero
   * unless the value shown is 0, then "%".
   */
  lemma ProgressFieldForm(size: Option<int>, value: int)
    requires HasSize(size)
    ensures var r := ProgressField(size, value);
      exists p :: 0 <= p < |r| - 1
        && (forall k :: 0 <= k < p ==> r[k] == ' ')
        && (forall k :: p <= k < |r| - 1 ==> IsDigit(r[k]))
        && (r[p] == '0' ==> p == |r| - 2 && value <= 0)
  {
    var d := Decimal(Max(0, value));
    var r := ProgressField(size, value);
    var p := |r| - 1 - |d|;
    assert r[p..|r| - 1] == d;
    assert r[p] == d[0];
  }

  /**
   * A reader of the progress field: the percent it shows, or None when it
   * shows no percent. It accepts blanks, then decimal digits without a
   * leading zero (except "0" itself), then "%".
   */
  function ParsePercent(field: string): Option<nat> {
    if |field| >= 1 && field[|field| - 1] == '%' then
      var digits := TrimLeadingSpaces(field[..|field| - 1]);
      if |digits| >= 1 && AllDigits(digits) && (digits[0] == '0' ==> |digits| == 1)
      then Some(ParseDecimal(digits))
      else None
    else
      None
  }

  /**
   * The progress field shows a percent exactly when the size is known and
   * not 0, and the percent it shows is the value clamped at 0: the initial
   * value -1 reads as 0%.
   */
  lemma ProgressFieldShows(size: Option<int>, value: int)
    ensures ParsePercent(ProgressField(size, value))
            == if HasSize(size) then Some(Max(0, value)) else None
  {
    if HasSize(size) {
      var d := Decimal(Max(0, value));
      var f := ProgressField(size, value);
      assert f[..|f| - 1] == Spaces(3 - |d|) + d;
      TrimSpacesBefore(3 - |d|, d);
      DecimalRoundTrip(Max(0, value));
    }
  }

  /** The " | phase" suffix, present only when the phase is not empty. */
  function PhaseSuffix(phase: Option<string>): (r: string)
    ensures r == "" <==> !HasPhase(phase)
  {
    if HasPhase(phase) then " | " + phase.value else ""
  }

  /** The text of the line before padding. */
  function TextLine(size: Option<int>, value: int, doneText: string, elapsedText: string,
                    rateText: string, phase: Option<string>): (r: string)
    ensures |r| >= 2 + |ProgressField(size, value)|
    ensures r[..2] == "[ "
    ensures r[2..2 + |ProgressField(size, value)|] == ProgressField(size, value)
  {
    var head := "[ " + ProgressField(size, value);
    assert head[..2] == "[ " && head[2..] == ProgressField(size, value);
    head + LineTail(doneText, elapsedText, rateText, phase)
  }

  /** What follows the progress field: bytes done, elapsed time, rate and phase. */
  function LineTail(doneText: string, elapsedText: string, rateText: string,
                    phase: Option<string>): string
  {
    " ] " + doneText + ", " + elapsedText + " s, " + rateText + "/s" + PhaseSuffix(phase)
  }

  /**
   * The line the text formatter draws: the text line padded with blanks to
   * at least `width` characters, ended by "\n" on the last draw and by "\r"
   * (return to the first column, so the next draw overwrites it) otherwise.
   */
  function TextDraw(size: Option<int>, width: int, value: int, doneText: string,
                    elapsedText: string, rateText: string, phase: Option<string>,
                    last: bool): (r: string)
    ensures var line := TextLine(size, value, doneText, elapsedText, rateText, phase);
      && |r| == Max(|line|, width) + 1
      && r[..|line|] == line
      && (forall k :: |line| <= k < |r| - 1 ==> r[k] == ' ')
    ensures r[|r| - 1] == '\n' || r[|r| - 1] == '\r'
    ensures r[|r| - 1] == '\n' <==> last
  {
    var line := TextLine(size, value, doneText, elapsedText, rateText, phase);
    LJust(line, width) + (if last then "\n" else "\r")
  }

  /**
   * Whatever the width and the opaque texts, the drawn line starts with
   * "[ " and its progress field reads as the clamped percent when the size
   * is known and not 0, and as no percent ("----") otherwise.
   */
  lemma TextDrawShowsProgress(size: Option<int>, width: int, value: int, doneText: string,
                              elapsedText: string, rateText: string, phase: Option<string>,
                              last: bool)
    ensures var r := TextDraw(size, width, value, doneText, elapsedText, rateText, phase, last);
      var f := ProgressField(size, value);
      && |r| >= 2 + |f|
      && r[..2] == "[ "
      && r[2..2 + |f|] == f
      && ParsePercent(f) == if HasSize(size) then Some(Max(0, value)) else None
  {
    var r := TextDraw(size, width, value, doneText, elapsedText, rateText, phase, last);
    var line := TextLine(size, value, doneText, elapsedText, rateText, phase);
    SliceOfPrefix(r, line, ProgressField(size, value));
    ProgressFieldShows(size, value);
  }

  /** A slice inside a prefix of `r` is the same slice of `r`. */
  lemma SliceOfPrefix(r: string, line: string, f: string)
    requires 2 + |f| <= |line| <= |r| && r[..|line|] == line && line[2..2 + |f|] == f
    ensures r[..2] == line[..2] && r[2..2 + |f|] == f
  {
    assert r[2..2 + |f|] == r[..|line|][2..2 + |f|];
    assert r[..2] == r[..|line|][..2];
  }
}
