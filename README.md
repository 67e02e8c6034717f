# ovirt-imageio client progress reporter, modelled in Dafny

This project models the progress reporter of the ovirt-imageio client
(`ovirt_imageio/client/_ui.py`). A `ProgressBar` counts the bytes a transfer
has moved. It keeps a percent value that starts at -1, a phase text, an
optional total size and a closed flag. It redraws its line only on these
events:

- construction;
- a change of phase;
- a change of size;
- an update that raises the whole-percent value;
- the first close.

After close it ignores everything. The text formatter shapes each line.
The `FORMATTER` table picks the formatter from the `format` argument.

The model has four modules:

- `Wrappers` (`wrappers.dfy`): `Option` for Python's `None` and `Result` for
  a raised exception.
- `UiFormat` (`ui_format.dfy`): the `FORMATTER` lookup and the structure of
  `TextFormat.draw`. It covers the `"----"`-or-percent field, the clamp of
  the value at 0, the three-column `{:3d}` rendering, the `" | phase"` suffix,
  the padding to the width and the `"\n"`/`"\r"` terminator. `ParsePercent`
  is the inverse that the round-trip lemma reads the field back with.
- `UiProgress` (`ui_progress.dfy`): the bar's state machine as values. It has
  one function per operation (`Init`, `WithPhase`, `WithSize`, `Advance`,
  `Finish`, `Leave`), the invariant `Inv` that each of them keeps, and lemmas
  about any sequence of operations (`Run`).
- `UiProgressBar` (`ui_progress_bar.dfy`): the `ProgressBar` class. It has
  mutable fields and `modifies this` methods, and each method is proved to
  move the bar exactly as the matching `UiProgress` function does. `Create`
  models the `FORMATTER[format]` lookup that raises `KeyError`.
  `CreateWithDefaults` models the default arguments of `__init__`.

Writing to the output is replaced by a ghost list of `Draw` events. Each
event records `(value, done, phase, size, last)`: what `_draw` hands to the
formatter, plus the size the formatter holds at that moment, because the text
formatter reads `self.size`.

The percent `int(self._done / self.size * 100)` is computed in floating point.
Its result is not always `floor(100 * done / size)`: 29/100*100 gives 28. So
the percent is a function parameter `pct`, and every property is proved for
every `pct`.

One might expect the byte counter only to grow. The code adds whatever `n`
it is given, and does not reject a negative one. The model
follows the code: `done` grows by exactly `n` for any integer `n`. The percent
value, not the byte count, is what never decreases.

## Model

| member | source | states |
|---|---|---|
| `UiFormat.Formatter` | ovirt_imageio/client/_ui.py:73-77 | no format and "human" select the text formatter, "json" the JSON formatter, and every other key is absent (each direction of each case) |
| `UiFormat.LJust` | ovirt_imageio/client/_ui.py:59 | padding gives `max(len, width)` characters: the text unchanged, then blanks only |
| `UiFormat.ProgressField` | ovirt_imageio/client/_ui.py:46 | the field is "----" when the size is None or 0; otherwise it ends in "%", and it is exactly four characters for percents up to 999 |
| `UiFormat.DecimalRoundTrip` | ovirt_imageio/client/_ui.py:46 | the decimal digits rendered for a percent read back as that percent |
| `UiFormat.ProgressFieldForm` | ovirt_imageio/client/_ui.py:46 | a percent field is blanks, then decimal digits with no leading zero unless the value shown is 0, then "%" |
| `UiFormat.ProgressFieldShows` | ovirt_imageio/client/_ui.py:46 | the field reads as a percent exactly when the size is known and not 0, and that percent is `max(0, value)`, so the initial -1 shows as 0%; the reader accepts no leading zero, so a zero-padded rendering would not meet it |
| `UiFormat.PhaseSuffix` | ovirt_imageio/client/_ui.py:50 | the phase suffix is empty exactly when the phase is None or empty |
| `UiFormat.TextLine` | ovirt_imageio/client/_ui.py:51 | the line starts with "[ " followed by the progress field |
| `UiFormat.TextDraw` | ovirt_imageio/client/_ui.py:45-59 | the drawn text is the line padded with blanks to at least `width` characters, plus one terminator that is "\n" if and only if `last`, and "\r" otherwise |
| `UiFormat.TextDrawShowsProgress` | ovirt_imageio/client/_ui.py:45-51 | whatever the width and the opaque texts, the drawn line starts with "[ " and the progress field from column 2, which reads as the clamped percent or as no percent, as the size decides |
| `UiProgress.Init` | ovirt_imageio/client/_ui.py:100-112 | a new bar is open, has done 0 and value -1, and has exactly one draw: value -1, done 0, the given phase and size, not last; it satisfies the invariant |
| `UiProgress.WithPhase` | ovirt_imageio/client/_ui.py:118-125 | on a closed bar, or with the same phase, nothing changes; otherwise the phase changes and exactly one non-last draw carrying it is appended, nothing else changes |
| `UiProgress.WithSize` | ovirt_imageio/client/_ui.py:131-138 | on a closed bar, or with the same size, nothing changes; otherwise the size changes and exactly one non-last draw carrying it is appended, nothing else changes |
| `UiProgress.Advance` | ovirt_imageio/client/_ui.py:140-161 | a closed bar is unchanged; an open bar's `done` grows by exactly `n` whatever the size; a draw is appended exactly when the size is truthy and the new percent exceeds `value`, and `value` then becomes that percent; otherwise `value` and the draws stay |
| `UiProgress.Finish` | ovirt_imageio/client/_ui.py:163-167 | the first close sets `closed` and appends one draw with `last` set, changing nothing else; closing a closed bar changes nothing |
| `UiProgress.CloseIdempotent` | ovirt_imageio/client/_ui.py:163-167 | closing twice equals closing once, and a close adds one draw to an open bar and none to a closed one |
| `UiProgress.Redraw` | ovirt_imageio/client/_ui.py:169-172 | a redraw appends one event carrying the current value, done, phase and size and the given `last` flag, and changes nothing else |
| `UiProgress.Leave` | ovirt_imageio/client/_ui.py:177-181 | the bar ends closed; a closed bar stays as it is; an open bar keeps its earlier draws and gets a final `last` draw carrying the error phase after an exception and the current phase otherwise, with the current done and value; one extra draw comes first when the error phase differs; no other new draw is last |
| `UiProgress.StepKeepsInv` | ovirt_imageio/client/_ui.py:118-181 | every operation keeps the invariant: drawn values never decrease, the latest draw shows the current value, phase and size, and only the final draw can be last, exactly when closed |
| `UiProgress.RunKeepsInv` | ovirt_imageio/client/_ui.py:118-181 | any sequence of operations keeps the invariant |
| `UiProgress.Reachable` | ovirt_imageio/client/_ui.py:100-181 | in every bar reached from construction, the first draw is the initial one, drawn percents never decrease, and at most one draw is last: the final draw, present exactly when the bar is closed |
| `UiProgress.RunKeepsDraws` | ovirt_imageio/client/_ui.py:169-172 | draws are only appended, never changed or removed |
| `UiProgress.RunValueNeverDecreases` | ovirt_imageio/client/_ui.py:157-161 | the percent value never decreases under any sequence of operations |
| `UiProgress.ClosedIgnoresAll` | ovirt_imageio/client/_ui.py:121-122 | once closed, any sequence of updates, setters, closes and exits leaves the bar exactly as it is |
| `UiProgress.OpenBarCountsEveryByte` | ovirt_imageio/client/_ui.py:153-156 | until a close, `done` grows by the sum of all updates, including those that draw nothing because the size is None or 0 |
| `UiProgress.UpdateDrawIsHigher` | ovirt_imageio/client/_ui.py:157-161 | a draw made by an update shows a percent strictly above every percent drawn before it |
| `UiProgress.OnlyFinalLineEnds` | ovirt_imageio/client/_ui.py:53-59 | with the text formatter, every line of a reachable bar ends in "\r" except the final line of a closed bar, which ends in "\n" |
| `UiProgressBar.ProgressBar.constructor` | ovirt_imageio/client/_ui.py:100-112 | the new object's state is `Init`: one initial draw, value -1, done 0, open; it keeps the given format, width and percent function |
| `UiProgressBar.ProgressBar.Redraw` | ovirt_imageio/client/_ui.py:169-172 | appends one event with the current value, done, phase and size, and changes nothing else |
| `UiProgressBar.ProgressBar.SetPhase` | ovirt_imageio/client/_ui.py:118-125 | the new state is `WithPhase` of the old: a closed bar or the same phase leaves the object unchanged; otherwise one draw is appended |
| `UiProgressBar.ProgressBar.SetSize` | ovirt_imageio/client/_ui.py:131-138 | the new state is `WithSize` of the old: a closed bar or the same size leaves the object unchanged; otherwise one draw is appended |
| `UiProgressBar.ProgressBar.Update` | ovirt_imageio/client/_ui.py:140-161 | the new state is `Advance` of the old: `done` grows by `n` on an open bar, `value` never decreases, and one draw is appended exactly when the size is truthy and the percent rises |
| `UiProgressBar.ProgressBar.Close` | ovirt_imageio/client/_ui.py:163-167 | the new state is `Finish` of the old: the first call appends the last draw, later calls leave the object unchanged |
| `UiProgressBar.ProgressBar.Exit` | ovirt_imageio/client/_ui.py:177-181 | the new state is `Leave` of the old: the bar ends closed, and the final draw of a bar that was open is last and carries the error phase after an exception |
| `UiProgressBar.Create` | ovirt_imageio/client/_ui.py:82-112 | construction fails with the unknown key exactly when the FORMATTER table lacks it; otherwise it yields a fresh, valid bar in the `Init` state with the selected formatter, the given width and the given percent function |
| `UiProgressBar.CreateWithDefaults` | ovirt_imageio/client/_ui.py:82-84 | with the default arguments (error phase "command failed", no format name, width 79) construction cannot fail and yields a text-format bar in the `Init` state |

## Left out

- The `threading.Lock` in `ProgressBar`: each method is one atomic step, and mutual exclusion is not modelled.
- `output.write` and `output.flush`: this is I/O. The ghost `draws` list records what each draw hands to the formatter.
- UiProgress.Advance: the percent `int(self._done / self.size * 100)` uses floating-point division. It is the parameter `pct`, not a fixed function, so the model does not say which percent a given byte count shows.
- `elapsed`, the rate and `util.humansize`: these are floating-point or external (`util` is not part of this model). `TextDraw` takes their rendered texts as opaque strings.
- `JsonFormat.draw`: it is `json.dumps` over a float `elapsed`. Only its selection through `FORMATTER` is modelled.
- The `output`, `now` and unused `step` arguments of `ProgressBar`, and the `phase`/`size` property getters. The getters return the fields, which the class exposes directly.
- `__enter__` returns the bar itself, so there is nothing to model.
