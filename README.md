# bubble-overlay, modelled in Dafny

`bubble-overlay` is a Bubble Tea component that lays one block of terminal text
(the overlay) over another (the backdrop) and decides when the overlay is shown.
It has two parts, both in `overlay.go`, and this project models both.

- **Compositor** (`Render`). While the overlay is closed, the backdrop is returned
  unchanged. While it is open, the free space in each direction is scaled by the
  alignment to get a left and a top offset. Then every backdrop row under the
  overlay is replaced by three parts: the row's first `left` cells, the overlay
  row, and whatever of the backdrop row lies past the overlay's width.
- **Visibility state machine** (`Open`, `Close`, `open`, `close`, `nextTimeout`,
  `Update`, `mouseHideHas`, `nextID`). Each overlay has an identity taken from a
  process-wide counter and a generation number (`tag`). `Open()` and `Close()`
  may arm a timer for the configured timeout. Arming a timer bumps the
  generation, and the timer's message carries the identity, the generation and
  the state. `Update` honours a timer message only if both identity and
  generation match; it then reverses the state without arming anything. A mouse
  event of a configured kind closes the overlay. Any other message is ignored.

Files and modules:

- `wrappers.dfy` (`Wrappers`): `Option`, standing for a Go value that may be `nil`.
- `lines.dfy` (`Lines`): `strings.Split` and `strings.Join` on `"\n"`, both round
  trips between them, and the widths and truncation that lipgloss provides,
  specialised to plain text in which every character is one cell wide.
- `compositor.dfy` (`Compositor`): alignment as an exact fraction, the offsets,
  the row splice, and `Compose`, the value that `Render` returns for an open
  overlay.
- `visibility.dfy` (`Visibility`): the visibility fields as a value (`State`),
  the transitions `Open`, `Close`, `Update` and `NextTimeout`, and lemmas about
  single transitions and about any sequence of calls and deliveries (`Run`).
- `overlay.dfy` (`Overlay`): the `IdAllocator` class, standing for `nextID` and
  its global counter, and the `Model` class. Its methods update `tag` and
  `isOpen` in place, as the Go pointer-receiver methods do, and each method's
  postcondition equates the new fields and the returned command with the
  matching `Visibility` transition. `Render` splits the backdrop into an array
  of lines, overwrites the overlay rows in place (`SpliceInPlace`, the loop of
  `Render`) and joins the lines again.

Modelling choices:

- A `tea.Cmd` is `Option<Tick>`. `Tick(after, msg)` is the `tea.Tick` that
  delivers `msg` after `after` time units; `None` is a `nil` command.
- Messages are `Timeout(TimeoutMsg) | Mouse(kind) | Other`. `Other` stands for
  every message type that `Update` does not handle.
- Durations are `nat`s. Mouse event kinds are integers, as `tea.MouseEventType` is.
- The Go field `opened` is called `isOpen`, because `opened` is a Dafny keyword.
- The identity is a `const`: nothing ever assigns it after construction.
- The `Model` constructor stands for `New` followed by its options. It takes the
  timeouts, the hiding kinds and the two alignments as parameters, and draws the
  identity from an `IdAllocator`.
- `lipgloss.Position` is a fraction `num/den` with `0 <= num <= den`. An offset
  is `(free space) * num / den`, rounded down. This agrees with Go's
  `int(float64(...) * float64(pos))` whenever the float64 product is exact, as it
  is for the alignments 0, 0.5 and 1. For other alignments float64 rounding can
  give one less (90 * 0.7 is 62.99999999999999 in float64, which `int` truncates
  to 62, where the exact value is 63).
- `lipgloss.Size` gives the length of the longest line and the number of lines.
  `MaxWidth(k).Render(line)` gives the first `k` characters of `line`. The
  `right` part of `Render` (overlay.go:230) is therefore `line` with its first
  `min(left + ow, |line|)` characters removed.
- `Render` requires that the overlay fit in the backdrop whenever the overlay is
  open. The source indexes `blines[i]` (overlay.go:223) without a check, so a
  taller overlay would panic there. Both offsets are then between 0 and the free
  space, so the rows the loop touches exist.
- A timer that fires calls `close(false)` or `open(false)` (overlay.go:249,
  252), and these never arm a timer. So, whatever the `WithTimeout` comment
  (overlay.go:118-120) suggests, the overlay never switches back and forth on
  its own: it stays in the new state until the next call.
  `FiredTimerDoesNotRearm` and `UpdateNeverArms` state this.
- A mouse dismissal does not bump the generation (overlay.go:259), so a pending
  timer of the current generation still acts afterwards.
  `DismissKeepsPendingTimer` shows one case: `Close()` with a close timeout
  arms a timer, a hiding mouse event comes in, and the timer still reopens the
  overlay.
- `Update` has a value receiver and returns `m, m.close(false)`. The model
  treats this as "the new model is `m` after the call". The Go specification
  leaves open whether `m` is read before or after the call in that statement.
  `Update` is modelled as a method that updates the object in place, since
  callers replace their model with the returned one.

## Model

| member | source | states |
|---|---|---|
| `Lines.Split` | overlay.go:219-220 | `strings.Split` on `"\n"` yields at least one line, and no line holds a line break |
| `Lines.Join` | overlay.go:236 | `strings.Join` on `"\n"`; it undoes `Split` in both directions, as `JoinSplit` and `SplitJoin` prove |
| `Lines.JoinSplit` | overlay.go:219-236 | joining the lines of any split text gives the text back |
| `Lines.SplitJoin` | overlay.go:219-236 | splitting the join of a non-empty list of lines without breaks gives the same list back, so the caller of `Render` splits the result into exactly the rows spliced |
| `Lines.SplitPrefix` | overlay.go:219-220 | text without a break, put in front of other text, becomes part of its first line and leaves the other lines as they were |
| `Lines.MaxLen` | overlay.go:210-211 | a block's width is at least every line's length and equals some line's length; 0 for no lines |
| `Lines.Width` | overlay.go:210-211 | the width that `lipgloss.Size` reports bounds the length of every line of the block, and some line has exactly that length |
| `Lines.Height` | overlay.go:210-211 | the height that `lipgloss.Size` reports is the number of lines, at least one; `SplitCountsBreaks` proves it is one more than the number of line breaks |
| `Lines.SplitCountsBreaks` | overlay.go:210-211 | a block has one more line than it has line breaks |
| `Lines.Truncate` | overlay.go:225-226 | `MaxWidth(k).Render(line)` on plain text is the prefix of `line` of length `min(k, len(line))` |
| `Lines.Remainder` | overlay.go:228-230 | `right` is what remains of `line` after the truncated prefix: prefix and remainder put together are the line |
| `Compositor.Scale` | overlay.go:213-216 | an offset lies between 0 and the free space; alignment 0 gives 0, alignment 1 gives the whole free space, centring gives half of it rounded down |
| `Compositor.ScaleFloor` | overlay.go:213-216 | for every alignment the offset is `d * num / den` rounded down: `r * den <= d * num < (r + 1) * den` |
| `Compositor.LeftOffset` | overlay.go:214 | the overlay, starting at the left offset, ends within the backdrop's width |
| `Compositor.TopOffset` | overlay.go:216 | the overlay, starting at the top offset, ends within the backdrop's height, so every row the loop indexes exists |
| `Compositor.SpliceLine` | overlay.go:222-233 | one loop iteration: when the overlay line is `ow` cells and the backdrop line reaches `left + ow`, the result has the backdrop line's length, its first `left` cells, then the overlay line, then its cells from `left + ow` on |
| `Compositor.Splice` | overlay.go:221-234 | the backdrop lines after the loop; `SpliceOverlaid` proves the line count, the untouched rows and the spliced rows |
| `Compositor.SpliceOverlaid` | overlay.go:221-234 | the spliced lines keep the backdrop's line count; lines outside the window are the backdrop's own, and each line inside is left part, overlay line and right part |
| `Compositor.SpliceRows` | overlay.go:219-236 | joining the spliced lines and splitting them again gives exactly those spliced rows |
| `Compositor.Compose` | overlay.go:209-236 | the open overlay's rendering has as many lines as the backdrop; lines outside the overlay's rows are unchanged; each line inside is the backdrop line's first `left` cells, then the overlay line, then the backdrop line past `left + ow` |
| `Compositor.CenteredScenario` | overlay.go:209-236 | a centred 3x1 `"XXX"` on a 10x5 dot backdrop lands at row 2, columns 3-5, and every other character stays |
| `Visibility.NextTimeout` | overlay.go:199-203 | the timer carries the identity, generation and visibility of the state right after arming; `OpenArmsIffTimeout` and `CloseArmsIffTimeout` prove the payload on both paths |
| `Visibility.Open` | overlay.go:170-180 | `open(withTimeout)` as a transition of values; `OpenArmsIffTimeout` proves what `Open()` does and `CurrentTimeoutReverses` what `open(false)` does |
| `Visibility.Close` | overlay.go:186-197 | `close(withTimeout)` as a transition of values; `CloseArmsIffTimeout` proves what `Close()` does and `CurrentTimeoutReverses` and `MouseHidesIffListed` what `close(false)` does |
| `Visibility.Update` | overlay.go:239-267 | `Update(msg)` as a transition of values; `UpdateNeverArms`, `StaleTimeoutIgnored`, `CurrentTimeoutReverses`, `MouseHidesIffListed` and `OtherIgnored` prove its branches |
| `Visibility.OpenArmsIffTimeout` | overlay.go:166-180 | `Open()` shows the overlay; it arms a timer for `OpenTimeout` exactly when that is non-zero, bumping `tag` by one and carrying `(id, tag, true)`; otherwise `tag` is unchanged and there is no command |
| `Visibility.CloseArmsIffTimeout` | overlay.go:182-197 | `Close()` hides the overlay; it arms a timer for `CloseTimeout` exactly when that is non-zero, bumping `tag` by one and carrying `(id, tag, false)`; otherwise `tag` is unchanged and there is no command |
| `Visibility.UpdateNeverArms` | overlay.go:239-267 | no message ever makes `Update` return a command, and only `isOpen` can change |
| `Visibility.StaleTimeoutIgnored` | overlay.go:244-255 | a timer whose identity or generation differs from the overlay's changes nothing and returns no command |
| `Visibility.CurrentTimeoutReverses` | overlay.go:246-253 | a timer of this overlay and its current generation sets the state to the opposite of the state it was armed in, keeps `tag`, and arms nothing |
| `Visibility.MouseHidesIffListed` | overlay.go:256-261 | a mouse event closes the overlay, without a tag change or a command, exactly when its kind is one of `MouseHide`; with an empty list no mouse event does anything |
| `Visibility.OtherIgnored` | overlay.go:262-263 | any other message leaves the overlay unchanged and returns no command |
| `Visibility.ApplyCountsGeneration` | overlay.go:166-267 | any one call or delivery keeps the identity and configuration, and bumps `tag` by exactly one when, and only when, it arms a timer, which carries the identity and the new `tag` |
| `Visibility.RunCountsGenerations` | overlay.go:174-193 | over any sequence of calls and deliveries, the identity and configuration stay, `tag` grows by the number of timers armed, and the k-th armed timer carries generation `tag + k + 1` |
| `Visibility.SupersededTimersIgnored` | overlay.go:244-246 | after any sequence of calls and deliveries, every timer armed before the latest one, and every timer from before the sequence when one was armed during it, is ignored |
| `Visibility.LatestTimerActs` | overlay.go:246-253 | the most recently armed timer still matches, and when it fires it reverses the state it was armed in |
| `Visibility.FiredTimerDoesNotRearm` | overlay.go:247-253 | with both timeouts set, `Open()` arms a timer; when it fires the overlay closes and nothing more is armed, so there is no oscillation |
| `Visibility.DismissKeepsPendingTimer` | overlay.go:256-260 | after `Close()` arms its timer and a hiding mouse event arrives, the tag is unchanged and the timer still reopens the overlay |
| `Overlay.IdAllocator.constructor` | overlay.go:14-17 | the counter starts at zero |
| `Overlay.IdAllocator.Next` | overlay.go:20-25 | `nextID` raises the counter by one and returns its new value |
| `Overlay.NewOverlaysDistinct` | overlay.go:143-150 | two overlays created from the same counter get different, increasing identities |
| `Overlay.Model.constructor` | overlay.go:143-160 | a new overlay takes the next identity, starts closed in generation 0, and holds the given configuration |
| `Overlay.Model.OpenWith` | overlay.go:170-180 | `open(withTimeout)` changes only `isOpen` and `tag`, exactly as `Visibility.Open` says |
| `Overlay.Model.Open` | overlay.go:166-168 | `Open()` is `open(true)` |
| `Overlay.Model.CloseWith` | overlay.go:186-197 | `close(withTimeout)` changes only `isOpen` and `tag`, exactly as `Visibility.Close` says |
| `Overlay.Model.Close` | overlay.go:182-184 | `Close()` is `close(true)` |
| `Overlay.Model.MouseHideHas` | overlay.go:273-280 | the search answers true exactly when the event kind is in `MouseHide` |
| `Overlay.Model.Update` | overlay.go:239-267 | `Update` changes only `isOpen` and `tag`, and returns the command, exactly as `Visibility.Update` says |
| `Overlay.Model.Render` | overlay.go:205-237 | a closed overlay renders as the backdrop unchanged; an open one renders as `Compose` of the overlay and backdrop at the model's alignments |
| `Overlay.SpliceInPlace` | overlay.go:221-234 | the loop turns the array of backdrop lines into the splice of the overlay lines at the two offsets, in place |

## Left out

- Styling: `defaultOverlayStyle`, `defaultBackdropStyle`, the `Style` and `BackdropStyle` fields, and the `With*` option functions (overlay.go:33-44, 87-141). These are lipgloss configuration values. The effect of the options on the modelled fields is covered by the `Model` constructor's parameters.
- The `Overlay` and `Backdrop` fields, `View` and `Init` (overlay.go:162-164, 269-271). `View` only passes the two fields to `Render`, and `Init` returns no command.
- Width-aware measuring and truncation: wide characters, zero-width characters, ANSI styling and tab expansion inside `lipgloss.Size` and `MaxWidth` are foreign code. Every character counts as one cell and one storage unit here. So the byte slice at overlay.go:230 and the display-width prefix coincide.
- Lines.Truncate: keeps the first `k` cells for every `k`, `k = 0` included. If lipgloss treats a maximum width of 0 as "no limit", then a left offset of 0 keeps the whole backdrop line as `left`, and this model does not show that. lipgloss is not part of this model.
- Compositor.Scale: alignments are exact fractions in [0, 1], not `float64`s. For alignments whose `float64` product is inexact (such as 0.7), Go can give one less than the exact floor this model computes. Positions outside [0, 1] are not modelled either.
- An overlay wider or taller than the backdrop: the source defines no behaviour for it (negative offsets, an index out of range at overlay.go:223). `Render` requires the overlay to fit while open, and no clamping policy is invented.
- The mutex around the counter (overlay.go:16, 21-22): the model is sequential and keeps only the counter.
- Timer delivery: `tea.Tick` is represented by the command value `Tick(after, msg)`. The host event loop that later delivers `msg` is left to the caller, as the `Run` events do.
- Lazy timer payloads: the Go closure in `nextTimeout` reads `m.id`, `m.tag` and `m.opened` through a pointer when the timer fires. The model fixes the payload to the values right after arming. What the pointer sees later depends on how the host copies models.
- `springStart` and `time.Now()` (overlay.go:172, 188): a clock read used for nothing.
- The commented-out spring animation and `FrameMsg` (overlay.go:27-31, 46-50, 152-154, 241-242).
- 64-bit integers: `tag` and the identity counter are unbounded here. Go's wrap-around after 2^63 increments is not modelled.
