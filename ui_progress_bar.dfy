/**
 * ProgressBar as an object whose methods update its fields in place. Every
 * method is proved to move the bar exactly as the matching function of
 * UiProgress does, and to keep UiProgress.Inv.
 *
 * The lock that serialises the methods is left out: each method is one
 * atomic step. Writing the formatted line to the output is replaced by
 * appending to the ghost list `draws`.
 */
module UiProgressBar {
  import opened Wrappers
  import opened UiFormat
  import UiProgress

  /** The phase shown when the code under the `with` block raised, unless told otherwise. */
  const DefaultErrorPhase: string := "command failed"

  /** The KeyError raised for a `format` name the FORMATTER table lacks. */
  datatype Error = UnknownFormat(key: Option<string>)

  class ProgressBar {
    var phase: Option<string>
    const errorPhase: Option<string>
    /** The formatter picked at construction. */
    const format: FormatKind
    const width: int
    /** The percent of a byte count out of the size (float arithmetic in the Python code). */
    const pct: (int, int) -> int
    /** The size the formatter holds; None while it is unknown. */
    var size: Option<int>
    /** Bytes transferred so far. */
    var done: int
    /** The percent last drawn by an update; -1 before the first. */
    var value: int
    var closed: bool
    /** Every draw made, in order, in place of the output stream. */
    ghost var draws: seq<UiProgress.Draw>

    ghost function State(): UiProgress.Bar
      reads this
    {
      UiProgress.Bar(phase, errorPhase, size, done, value, closed, draws)
    }

    ghost predicate Valid()
      reads this
    {
      UiProgress.Inv(State())
    }

    /** A new bar, drawn once before any update. */
    constructor (phase: Option<string>, errorPhase: Option<string>, size: Option<int>,
                 format: FormatKind, width: int, pct: (int, int) -> int)
      ensures Valid()
      ensures State() == UiProgress.Init(phase, errorPhase, size)
      ensures this.format == format && this.width == width && this.pct == pct
    {
      this.phase := phase;
      this.errorPhase := errorPhase;
      this.format := format;
      this.width := width;
      this.pct := pct;
      this.size := size;
      done := 0;
      value := -1;
      closed := false;
      draws := [];
      new;
      Redraw(false);
    }

    /** Hands the current state to the formatter. */
    method Redraw(last: bool)
      modifies this`draws
      ensures draws == old(draws) + [UiProgress.Draw(value, done, phase, size, last)]
    {
      draws := draws + [UiProgress.Draw(value, done, phase, size, last)];
    }

    /** The `phase` setter. */
    method SetPhase(s: Option<string>)
      requires Valid()
      modifies this
      ensures Valid()
      ensures State() == UiProgress.WithPhase(old(State()), s)
      ensures old(closed) || old(phase) == s ==> unchanged(this)
      ensures !old(closed) && old(phase) != s ==>
        phase == s && |draws| == |old(draws)| + 1
    {
      ghost var before := State();
      if closed {
        return;
      }
      if phase != s {
        phase := s;
        Redraw(false);
      }
      UiProgress.StepKeepsInv(before, UiProgress.SetPhase(s), pct);
    }

    /** The `size` setter. */
    method SetSize(n: Option<int>)
      requires Valid()
      modifies this
      ensures Valid()
      ensures State() == UiProgress.WithSize(old(State()), n)
      ensures old(closed) || old(size) == n ==> unchanged(this)
      ensures !old(closed) && old(size) != n ==>
        size == n && |draws| == |old(draws)| + 1
    {
      ghost var before := State();
      if closed {
        return;
      }
      if size != n {
        size := n;
        Redraw(false);
      }
      UiProgress.StepKeepsInv(before, UiProgress.SetSize(n), pct);
    }

    /** `update(n)`: count `n` more bytes, drawing when the percent goes up. */
    method Update(n: int)
      requires Valid()
      modifies this
      ensures Valid()
      ensures State() == UiProgress.Advance(old(State()), n, pct)
      ensures old(closed) ==> unchanged(this)
      ensures !old(closed) ==> done == old(done) + n
      ensures value >= old(value)
      ensures |draws| == |old(draws)| + 1 <==>
        !old(closed) && HasSize(size) && pct(done, size.value) > old(value)
    {
      ghost var before := State();
      if closed {
        return;
      }
      done := done + n;
      if HasSize(size) {
        var newValue := pct(done, size.value);
        if newValue > value {
          value := newValue;
          Redraw(false);
        }
      }
      UiProgress.StepKeepsInv(before, UiProgress.Update(n), pct);
    }

    /** `close()`: the first call makes the last draw, later calls do nothing. */
    method Close()
      requires Valid()
      modifies this
      ensures Valid()
      ensures State() == UiProgress.Finish(old(State()))
      ensures old(closed) ==> unchanged(this)
      ensures closed
      ensures !old(closed) ==> |draws| == |old(draws)| + 1 && draws[|draws| - 1].last
    {
      ghost var before := State();
      if !closed {
        closed := true;
        Redraw(true);
      }
      UiProgress.StepKeepsInv(before, UiProgress.Close, pct);
    }

    /** `__exit__`: after an exception show the error phase, then close. */
    method Exit(raised: bool)
      requires Valid()
      modifies this
      ensures Valid()
      ensures State() == UiProgress.Leave(old(State()), raised)
      ensures old(closed) ==> unchanged(this)
      ensures closed
      ensures !old(closed) ==>
        && draws[|draws| - 1].last
        && draws[|draws| - 1].phase == (if raised then errorPhase else old(phase))
    {
      if raised {
        SetPhase(errorPhase);
      }
      Close();
    }
  }

  /**
   * Building a progress bar: the `format` name is looked up in the FORMATTER
   * table first, and a name missing from it raises before anything is drawn.
   */
  method Create(phase: Option<string>, errorPhase: Option<string>, size: Option<int>,
                format: Option<string>, width: int, pct: (int, int) -> int)
    returns (r: Result<ProgressBar, Error>)
    ensures r.Failure? <==> Formatter(format) == None
    ensures r.Failure? ==> r.error == UnknownFormat(format)
    ensures r.Success? ==>
      && fresh(r.value)
      && r.value.Valid()
      && r.value.State() == UiProgress.Init(phase, errorPhase, size)
      && Formatter(format) == Some(r.value.format)
      && r.value.width == width
      && r.value.pct == pct
  {
    var kind := Formatter(format);
    if kind == None {
      return Failure(UnknownFormat(format));
    }
    var bar := new ProgressBar(phase, errorPhase, size, kind.value, width, pct);
    r := Success(bar);
  }

  /**
   * Building a progress bar with the default arguments: the error phase
   * "command failed", no format name (the text formatter) and the default
   * width. The lookup cannot fail.
   */
  method CreateWithDefaults(phase: Option<string>, size: Option<int>, pct: (int, int) -> int)
    returns (bar: ProgressBar)
    ensures fresh(bar) && bar.Valid()
    ensures bar.State() == UiProgress.Init(phase, Some(DefaultErrorPhase), size)
    ensures bar.format == TextFormat && bar.width == DefaultWidth && bar.pct == pct
  {
    var r := Create(phase, Some(DefaultErrorPhase), size, None, DefaultWidth, pct);
    bar := r.value;
  }
}
