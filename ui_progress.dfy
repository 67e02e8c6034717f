/**
 * The progress bar's state machine as values: the state ProgressBar keeps,
 * one function per operation, and the invariant that every operation keeps.
 *
 * Instead of writing its line to the output, every redraw appends a Draw
 * event recording what the formatter is given: the percent value, the
 * byte count, the phase, the size the formatter holds at that moment, and
 * whether it is the last draw.
 *
 * The percent of `done` out of `size` is `int(done / size * 100)` in floating
 * point; it is a parameter `pct` here, and everything below holds whatever
 * `pct` computes.
 */
module UiProgress {
  import opened Wrappers
  import opened UiFormat

  /** What one redraw hands to the formatter. */
  datatype Draw = Draw(value: int, done: int, phase: Option<string>, size: Option<int>, last: bool)

  /** The state of a progress bar, with the draws made so far. */
  datatype Bar = Bar(
    phase: Option<string>,
    errorPhase: Option<string>,
    size: Option<int>,
    done: int,
    value: int,
    closed: bool,
    draws: seq<Draw>)

  /** The operations a caller applies to a bar. */
  datatype Op =
    | SetPhase(phase: Option<string>)
    | SetSize(size: Option<int>)
    | Update(n: int)
    | Close
    | Exit(raised: bool)

  function LastDraw(b: Bar): Draw
    requires |b.draws| >= 1
  {
    b.draws[|b.draws| - 1]
  }

  /**
   * What holds of every bar the operations can reach: the first draw is
   * the initial one (percent -1, nothing done, not last); the percent values
   * drawn never go down; the most recent draw shows the current percent,
   * phase and size; only the final draw can be the last one, and it is
   * exactly when the bar is closed.
   */
  ghost predicate Inv(b: Bar) {
    && |b.draws| >= 1
    && b.draws[0].value == -1 && b.draws[0].done == 0 && !b.draws[0].last
    && (forall i, j :: 0 <= i < j < |b.draws| ==> b.draws[i].value <= b.draws[j].value)
    && (forall i :: 0 <= i < |b.draws| - 1 ==> !b.draws[i].last)
    && LastDraw(b).value == b.value
    && LastDraw(b).phase == b.phase
    && LastDraw(b).size == b.size
    && (LastDraw(b).last <==> b.closed)
  }

  /** One redraw of the current state. */
  function Redraw(b: Bar, last: bool): (r: Bar)
    ensures r.draws == b.draws + [Draw(b.value, b.done, b.phase, b.size, last)]
    ensures r.(draws := b.draws) == b
  {
    b.(draws := b.draws + [Draw(b.value, b.done, b.phase, b.size, last)])
  }

  /**
   * A new bar: nothing done, percent -1 so that the first update shows 0%,
   * open, and drawn once before any update.
   */
  function Init(phase: Option<string>, errorPhase: Option<string>, size: Option<int>): (b: Bar)
    ensures Inv(b)
    ensures |b.draws| == 1 && b.draws[0] == Draw(-1, 0, phase, size, false)
    ensures b.done == 0 && b.value == -1 && !b.closed
    ensures b.phase == phase && b.errorPhase == errorPhase && b.size == size
  {
    Redraw(Bar(phase, errorPhase, size, 0, -1, false, []), false)
  }

  /**
   * The phase setter: on an open bar whose phase differs, take the new
   * phase and draw once; otherwise nothing changes.
   */
  function WithPhase(b: Bar, s: Option<string>): (r: Bar)
    ensures b.closed || b.phase == s ==> r == b
    ensures !b.closed && b.phase != s ==>
      && r.draws == b.draws + [Draw(b.value, b.done, s, b.size, false)]
      && r == b.(phase := s, draws := r.draws)
  {
    if b.closed || b.phase == s then b else Redraw(b.(phase := s), false)
  }

  /**
   * The size setter: on an open bar whose size differs, take the new size
   * and draw once; otherwise nothing changes.
   */
  function WithSize(b: Bar, n: Option<int>): (r: Bar)
    ensures b.closed || b.size == n ==> r == b
    ensures !b.closed && b.size != n ==>
      && r.draws == b.draws + [Draw(b.value, b.done, b.phase, n, false)]
      && r == b.(size := n, draws := r.draws)
  {
    if b.closed || b.size == n then b else Redraw(b.(size := n), false)
  }

  /**
   * `update(n)`: on an open bar add `n` to the byte count whatever the size;
   * when the size is known and not 0 and the new percent is above the
   * current one, take it and draw once. A closed bar ignores the update.
   */
  function Advance(b: Bar, n: int, pct: (int, int) -> int): (r: Bar)
    ensures b.closed ==> r == b
    ensures !b.closed ==> r.done == b.done + n
    ensures r.value >= b.value
    ensures r.phase == b.phase && r.size == b.size && r.closed == b.closed
    ensures r.errorPhase == b.errorPhase
    ensures var drew := !b.closed && HasSize(b.size) && pct(b.done + n, b.size.value) > b.value;
      && (drew ==> r.value == pct(b.done + n, b.size.value) > b.value
                   && r.draws == b.draws + [Draw(r.value, r.done, b.phase, b.size, false)])
      && (!drew ==> r.value == b.value && r.draws == b.draws)
  {
    if b.closed then b
    else
      var b1 := b.(done := b.done + n);
      if HasSize(b1.size) && pct(b1.done, b1.size.value) > b1.value then
        Redraw(b1.(value := pct(b1.done, b1.size.value)), false)
      else
        b1
  }

  /**
   * `close()`: the first call closes the bar and makes the last draw; a
   * closed bar stays as it is.
   */
  function Finish(b: Bar): (r: Bar)
    ensures b.closed ==> r == b
    ensures !b.closed ==>
      && r.draws == b.draws + [Draw(b.value, b.done, b.phase, b.size, true)]
      && r == b.(closed := true, draws := r.draws)
    ensures r.closed
  {
    if b.closed then b else Redraw(b.(closed := true), true)
  }

  /**
   * Leaving the `with` block: when the block raised, switch to the error
   * phase first; then close.
   */
  function Leave(b: Bar, raised: bool): (r: Bar)
    ensures r.closed
    ensures b.closed ==> r == b
    ensures !b.closed ==>
      && |r.draws| == |b.draws| + (if raised && b.phase != b.errorPhase then 2 else 1)
      && LastDraw(r).last
      && LastDraw(r).phase == (if raised then b.errorPhase else b.phase)
      && LastDraw(r).done == b.done && LastDraw(r).value == b.value
      && r.draws[..|b.draws|] == b.draws
      && (forall i :: |b.draws| <= i < |r.draws| - 1 ==> !r.draws[i].last)
  {
    Finish(if raised then WithPhase(b, b.errorPhase) else b)
  }

  function Step(b: Bar, op: Op, pct: (int, int) -> int): Bar {
    match op
    case SetPhase(s) => WithPhase(b, s)
    case SetSize(n) => WithSize(b, n)
    case Update(n) => Advance(b, n, pct)
    case Close => Finish(b)
    case Exit(raised) => Leave(b, raised)
  }

  /** The bar after applying `ops` in order. */
  function Run(b: Bar, ops: seq<Op>, pct: (int, int) -> int): Bar
    decreases |ops|
  {
    if ops == [] then b else Run(Step(b, ops[0], pct), ops[1..], pct)
  }

  /**
   * Appending to an open bar one draw that shows the new state, with a
   * percent no lower than before, keeps the invariant.
   */
  lemma AppendKeepsInv(b: Bar, r: Bar)
    requires Inv(b) && !b.closed
    requires |r.draws| == |b.draws| + 1 && r.draws[..|b.draws|] == b.draws
    requires r.value >= b.value
    requires LastDraw(r) == Draw(r.value, LastDraw(r).done, r.phase, r.size, r.closed)
    ensures Inv(r)
  {
    var n := |b.draws|;
    assert r.draws[0] == b.draws[0];
    forall i, j | 0 <= i < j < |r.draws|
      ensures r.draws[i].value <= r.draws[j].value
    {
      assert r.draws[i] == b.draws[i];
      if j < n {
        assert r.draws[j] == b.draws[j];
      } else {
        assert b.draws[i].value <= LastDraw(b).value;
      }
    }
    forall i | 0 <= i < |r.draws| - 1
      ensures !r.draws[i].last
    {
      assert r.draws[i] == b.draws[i];
    }
  }

  /** Every operation keeps the invariant. */
  lemma StepKeepsInv(b: Bar, op: Op, pct: (int, int) -> int)
    requires Inv(b)
    ensures Inv(Step(b, op, pct))
  {
    if !b.closed {
      match op
      case SetPhase(s) =>
        if b.phase != s { AppendKeepsInv(b, WithPhase(b, s)); }
      case SetSize(n) =>
        if b.size != n { AppendKeepsInv(b, WithSize(b, n)); }
      case Update(n) =>
        var r := Advance(b, n, pct);
        if r.draws != b.draws { AppendKeepsInv(b, r); }
      case Close =>
        AppendKeepsInv(b, Finish(b));
      case Exit(raised) =>
        var b1 := WithPhase(b, if raised then b.errorPhase else b.phase);
        if b1 != b { AppendKeepsInv(b, b1); }
        assert Leave(b, raised) == Finish(b1);
        AppendKeepsInv(b1, Finish(b1));
    }
  }

  /** Every bar reached from another by any operations keeps the invariant. */
  lemma {:induction false} RunKeepsInv(b: Bar, ops: seq<Op>, pct: (int, int) -> int)
    requires Inv(b)
    ensures Inv(Run(b, ops, pct))
    decreases |ops|
  {
    if ops != [] {
      StepKeepsInv(b, ops[0], pct);
      RunKeepsInv(Step(b, ops[0], pct), ops[1..], pct);
    }
  }

  /**
   * In every bar a caller can reach, whatever it did: the drawn event list
   * starts with the one initial draw, the percent values drawn never
   * decrease, and at most one draw is the last one, the final draw, made
   * exactly when the bar is closed.
   */
  lemma Reachable(phase: Option<string>, errorPhase: Option<string>, size: Option<int>,
                  ops: seq<Op>, pct: (int, int) -> int)
    ensures var r := Run(Init(phase, errorPhase, size), ops, pct);
      && |r.draws| >= 1
      && r.draws[0] == Draw(-1, 0, phase, size, false)
      && (forall i, j :: 0 <= i < j < |r.draws| ==> r.draws[i].value <= r.draws[j].value)
      && (forall i :: 0 <= i < |r.draws| && r.draws[i].last ==> i == |r.draws| - 1 && r.closed)
      && (r.closed <==> r.draws[|r.draws| - 1].last)
  {
    var b := Init(phase, errorPhase, size);
    RunKeepsInv(b, ops, pct);
    RunKeepsDraws(b, ops, pct);
  }

  /** Draws are only ever appended: earlier draws are never changed. */
  lemma {:induction false} RunKeepsDraws(b: Bar, ops: seq<Op>, pct: (int, int) -> int)
    ensures var r := Run(b, ops, pct);
      |r.draws| >= |b.draws| && r.draws[..|b.draws|] == b.draws
    decreases |ops|
  {
    if ops != [] {
      var b1 := Step(b, ops[0], pct);
      assert |b1.draws| >= |b.draws| && b1.draws[..|b.draws|] == b.draws;
      RunKeepsDraws(b1, ops[1..], pct);
    }
  }

  /** The percent value never decreases, whatever is applied. */
  lemma {:induction false} RunValueNeverDecreases(b: Bar, ops: seq<Op>, pct: (int, int) -> int)
    ensures Run(b, ops, pct).value >= b.value
    decreases |ops|
  {
    if ops != [] {
      var b1 := Step(b, ops[0], pct);
      assert b1.value >= b.value;
      RunValueNeverDecreases(b1, ops[1..], pct);
    }
  }

  /** A closed bar ignores every operation: no field changes, nothing is drawn. */
  lemma {:induction false} ClosedIgnoresAll(b: Bar, ops: seq<Op>, pct: (int, int) -> int)
    requires b.closed
    ensures Run(b, ops, pct) == b
    decreases |ops|
  {
    if ops != [] {
      assert Step(b, ops[0], pct) == b;
      ClosedIgnoresAll(b, ops[1..], pct);
    }
  }

  /** The bytes that the updates among `ops` add up to. */
  function UpdatedBytes(ops: seq<Op>): int
    decreases |ops|
  {
    if ops == [] then 0
    else (if ops[0].Update? then ops[0].n else 0) + UpdatedBytes(ops[1..])
  }

  predicate Closes(op: Op) {
    op.Close? || op.Exit?
  }

  /**
   * Until the bar is closed every update is counted whatever the size:
   * the byte count grows by the sum of the updates, including those that
   * drew nothing.
   */
  lemma {:induction false} OpenBarCountsEveryByte(b: Bar, ops: seq<Op>, pct: (int, int) -> int)
    requires !b.closed
    requires forall k :: 0 <= k < |ops| ==> !Closes(ops[k])
    ensures Run(b, ops, pct).done == b.done + UpdatedBytes(ops)
    ensures !Run(b, ops, pct).closed
    decreases |ops|
  {
    if ops != [] {
      var b1 := Step(b, ops[0], pct);
      assert !b1.closed && b1.done == b.done + (if ops[0].Update? then ops[0].n else 0);
      OpenBarCountsEveryByte(b1, ops[1..], pct);
    }
  }

  /**
   * A draw made by an update shows a percent strictly above every percent
   * drawn before it.
   */
  lemma UpdateDrawIsHigher(b: Bar, n: int, pct: (int, int) -> int)
    requires Inv(b)
    requires |Advance(b, n, pct).draws| > |b.draws|
    ensures var r := Advance(b, n, pct);
      forall i :: 0 <= i < |b.draws| ==> b.draws[i].value < LastDraw(r).value
  {
    var r := Advance(b, n, pct);
    forall i | 0 <= i < |b.draws|
      ensures b.draws[i].value < LastDraw(r).value
    {
      assert b.draws[i].value <= LastDraw(b).value;
    }
  }

  /** Closing twice is closing once. */
  lemma CloseIdempotent(b: Bar)
    ensures Finish(Finish(b)) == Finish(b)
    ensures |Finish(b).draws| == |b.draws| + (if b.closed then 0 else 1)
  {
  }

  /** The text line the formatter draws for one event. */
  function TextLineOf(d: Draw, width: int, humanSize: int -> string, elapsedText: string,
                      rateText: string): string
  {
    TextDraw(d.size, width, d.value, humanSize(d.done), elapsedText, rateText, d.phase, d.last)
  }

  /**
   * With the text formatter, in every bar a caller can reach, the drawn
   * lines return to the first column ("\r") except the final line of a
   * closed bar, which ends the line ("\n").
   */
  lemma OnlyFinalLineEnds(phase: Option<string>, errorPhase: Option<string>, size: Option<int>,
                          ops: seq<Op>, pct: (int, int) -> int, width: int,
                          humanSize: int -> string, elapsedText: string, rateText: string)
    ensures var r := Run(Init(phase, errorPhase, size), ops, pct);
      forall i :: 0 <= i < |r.draws| ==>
        var line := TextLineOf(r.draws[i], width, humanSize, elapsedText, rateText);
        line[|line| - 1] == (if i == |r.draws| - 1 && r.closed then '\n' else '\r')
  {
    var r := Run(Init(phase, errorPhase, size), ops, pct);
    Reachable(phase, errorPhase, size, ops, pct);
    forall i | 0 <= i < |r.draws|
      ensures var line := TextLineOf(r.draws[i], width, humanSize, elapsedText, rateText);
        line[|line| - 1] == (if i == |r.draws| - 1 && r.closed then '\n' else '\r')
    {
      var d := r.draws[i];
      var line := TextLineOf(d, width, humanSize, elapsedText, rateText);
      assert line[|line| - 1] == '\n' <==> d.last;
    }
  }
}
