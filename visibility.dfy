/**
 * The visibility state machine of an overlay, as values: the state of one
 * overlay, the messages it receives, and the transitions of `open`, `close`
 * and `Update`. The `Overlay.Model` class updates its fields exactly as these
 * functions say; the lemmas here state what the transitions promise.
 */
module Visibility {
  import opened Wrappers

  /** `tea.MouseEventType`: the kind of a mouse event, an enumeration of integers. */
  type MouseEventType = int

  /** `TimeoutMsg`: the overlay `id`, the generation `tag` it was armed in, and the state then. */
  datatype TimeoutMsg = TimeoutMsg(id: int, tag: int, state: bool)

  /** A `tea.Tick` command: deliver `msg` after `after` time units. */
  datatype Tick = Tick(after: nat, msg: TimeoutMsg)

  /** A `tea.Cmd` as far as this component issues one: nothing, or one timer. */
  type Cmd = Option<Tick>

  /** The messages `Update` distinguishes; every other message is `Other`. */
  datatype Msg = Timeout(timeout: TimeoutMsg) | Mouse(kind: MouseEventType) | Other

  /** The visibility part of one overlay. */
  datatype State = State(
    id: int,                          // which overlay this is; never changes
    tag: int,                         // the generation: one more for every armed timer
    isOpen: bool,                     // whether the overlay is shown
    openTimeout: nat,                 // how long to stay open after Open (0: forever)
    closeTimeout: nat,                // how long to stay closed after Close (0: forever)
    mouseHide: seq<MouseEventType>)   // the mouse events that hide the overlay

  /** A transition: the new state and the command it returns. */
  datatype Step = Step(next: State, cmd: Cmd)

  /** `nextTimeout(d)`: a timer that reports this overlay, its generation and its state after `d`. */
  function NextTimeout(s: State, d: nat): Cmd
  {
    Some(Tick(d, TimeoutMsg(s.id, s.tag, s.isOpen)))
  }

  /** `open(withTimeout)`: show the overlay, and arm the open timeout if asked and configured. */
  function Open(s: State, withTimeout: bool): Step
  {
    var shown := s.(isOpen := true);
    if withTimeout && s.openTimeout != 0 then
      var armed := shown.(tag := shown.tag + 1);
      Step(armed, NextTimeout(armed, s.openTimeout))
    else Step(shown, None)
  }

  /** `close(withTimeout)`: hide the overlay, and arm the close timeout if asked and configured. */
  function Close(s: State, withTimeout: bool): Step
  {
    var hidden := s.(isOpen := false);
    if withTimeout && s.closeTimeout != 0 then
      var armed := hidden.(tag := hidden.tag + 1);
      Step(armed, NextTimeout(armed, s.closeTimeout))
    else Step(hidden, None)
  }

  /** `mouseHideHas(kind)` under the guard that the list is not empty. */
  predicate HidesOn(s: State, kind: MouseEventType)
  {
    |s.mouseHide| > 0 && kind in s.mouseHide
  }

  /**
   * `Update(msg)`: a timer of this overlay and of its current generation
   * reverses the state it was armed in, without arming anything; a mouse
   * event of a hiding kind closes the overlay; everything else is ignored.
   */
  function Update(s: State, msg: Msg): Step
  {
    match msg
    case Timeout(t) =>
      if t.id == s.id && t.tag == s.tag then
        if t.state then Close(s, false) else Open(s, false)
      else Step(s, None)
    case Mouse(kind) =>
      if HidesOn(s, kind) then Close(s, false) else Step(s, None)
    case Other => Step(s, None)
  }

  /** `Open()` shows; it arms a timer for `openTimeout` exactly when that is not zero, in a new generation. */
  lemma OpenArmsIffTimeout(s: State)
    ensures Open(s, true).next.isOpen
    ensures Open(s, true).cmd.Some? <==> s.openTimeout != 0
    ensures s.openTimeout != 0 ==>
              Open(s, true) == Step(s.(isOpen := true, tag := s.tag + 1),
                                    Some(Tick(s.openTimeout, TimeoutMsg(s.id, s.tag + 1, true))))
    ensures s.openTimeout == 0 ==> Open(s, true) == Step(s.(isOpen := true), None)
  {
  }

  /** `Close()` hides; it arms a timer for `closeTimeout` exactly when that is not zero, in a new generation. */
  lemma CloseArmsIffTimeout(s: State)
    ensures !Close(s, true).next.isOpen
    ensures Close(s, true).cmd.Some? <==> s.closeTimeout != 0
    ensures s.closeTimeout != 0 ==>
              Close(s, true) == Step(s.(isOpen := false, tag := s.tag + 1),
                                     Some(Tick(s.closeTimeout, TimeoutMsg(s.id, s.tag + 1, false))))
    ensures s.closeTimeout == 0 ==> Close(s, true) == Step(s.(isOpen := false), None)
  {
  }

  /** `Update` never arms a timer and never changes the generation, the identity or the configuration. */
  lemma UpdateNeverArms(s: State, msg: Msg)
    ensures Update(s, msg).cmd == None
    ensures Update(s, msg).next == s.(isOpen := Update(s, msg).next.isOpen)
  {
  }

  /** A timer of another overlay, or of an earlier generation, changes nothing. */
  lemma StaleTimeoutIgnored(s: State, t: TimeoutMsg)
    requires t.id != s.id || t.tag != s.tag
    ensures Update(s, Timeout(t)) == Step(s, None)
  {
  }

  /** A timer of this overlay's current generation reverses the state it was armed in. */
  lemma CurrentTimeoutReverses(s: State, t: TimeoutMsg)
    requires t.id == s.id && t.tag == s.tag
    ensures Update(s, Timeout(t)) == Step(s.(isOpen := !t.state), None)
  {
  }

  /** A mouse event closes the overlay exactly when its kind is one of the hiding kinds. */
  lemma MouseHidesIffListed(s: State, kind: MouseEventType)
    ensures Update(s, Mouse(kind)) == if kind in s.mouseHide then Step(s.(isOpen := false), None) else Step(s, None)
    ensures s.mouseHide == [] ==> Update(s, Mouse(kind)) == Step(s, None)
  {
  }

  /** Any other message changes nothing. */
  lemma OtherIgnored(s: State)
    ensures Update(s, Other) == Step(s, None)
  {
  }

  /** What the host can do to an overlay: call Open, call Close, or deliver a message. */
  datatype Event = CallOpen | CallClose | Deliver(msg: Msg)

  function Apply(s: State, e: Event): Step
  {
    match e
    case CallOpen => Open(s, true)
    case CallClose => Close(s, true)
    case Deliver(msg) => Update(s, msg)
  }

  /** The final state after a sequence of events, and the timers armed on the way, oldest first. */
  datatype Trace = Trace(last: State, armed: seq<Tick>)

  function Run(s: State, events: seq<Event>): Trace
    decreases |events|
  {
    if events == [] then Trace(s, [])
    else
      var step := Apply(s, events[0]);
      var rest := Run(step.next, events[1..]);
      Trace(rest.last, (if step.cmd.Some? then [step.cmd.value] else []) + rest.armed)
  }

  /**
   * One event keeps the identity and the configuration, and raises the
   * generation by one exactly when it arms a timer, which then carries this
   * overlay's identity and the new generation.
   */
  lemma ApplyCountsGeneration(s: State, e: Event)
    ensures var step := Apply(s, e);
            && step.next == s.(isOpen := step.next.isOpen, tag := step.next.tag)
            && step.next.tag == (if step.cmd.Some? then s.tag + 1 else s.tag)
            && (step.cmd.Some? ==> step.cmd.value.msg.id == s.id && step.cmd.value.msg.tag == s.tag + 1)
  {
  }

  /**
   * Generations count armed timers: after any events the identity and the
   * configuration are those of the start, the generation has grown by the
   * number of timers armed, and the k-th armed timer carries this overlay's
   * identity and generation `tag + k + 1`.
   */
  lemma {:induction false} RunCountsGenerations(s: State, events: seq<Event>)
    ensures var tr := Run(s, events);
            && tr.last == s.(isOpen := tr.last.isOpen, tag := tr.last.tag)
            && tr.last.tag == s.tag + |tr.armed|
            && forall k :: 0 <= k < |tr.armed| ==> tr.armed[k].msg.id == s.id && tr.armed[k].msg.tag == s.tag + k + 1
    decreases |events|
  {
    if events != [] {
      var step := Apply(s, events[0]);
      var rest := Run(step.next, events[1..]);
      ApplyCountsGeneration(s, events[0]);
      RunCountsGenerations(step.next, events[1..]);
      var armed := (if step.cmd.Some? then [step.cmd.value] else []) + rest.armed;
      assert Run(s, events) == Trace(rest.last, armed);
      if step.cmd.Some? {
        assert forall k :: 1 <= k < |armed| ==> armed[k] == rest.armed[k - 1];
      } else {
        assert armed == rest.armed;
      }
    }
  }

  /**
   * Only the most recently armed timer can act: every timer armed earlier in
   * the run, and every timer of a generation before the run, is ignored
   * once a later timer has been armed.
   */
  lemma {:induction false} SupersededTimersIgnored(s: State, events: seq<Event>, t: TimeoutMsg)
    requires var tr := Run(s, events);
             || (exists k :: 0 <= k < |tr.armed| - 1 && tr.armed[k].msg == t)
             || (t.tag <= s.tag && |tr.armed| > 0)
    ensures var tr := Run(s, events);
            Update(tr.last, Timeout(t)) == Step(tr.last, None)
  {
    RunCountsGenerations(s, events);
  }

  /** The most recently armed timer is live: when it fires it reverses the state it was armed in. */
  lemma {:induction false} LatestTimerActs(s: State, events: seq<Event>)
    requires |Run(s, events).armed| > 0
    ensures var tr := Run(s, events);
            var t := tr.armed[|tr.armed| - 1].msg;
            Update(tr.last, Timeout(t)) == Step(tr.last.(isOpen := !t.state), None)
  {
    RunCountsGenerations(s, events);
  }

  /**
   * No oscillation: with both timeouts set, Open arms a timer, and when that
   * timer fires the overlay closes and nothing more is armed, so it stays
   * closed until the next call.
   */
  lemma FiredTimerDoesNotRearm(s: State)
    requires s.openTimeout != 0 && s.closeTimeout != 0
    ensures var afterOpen := Open(s, true);
            var fired := Update(afterOpen.next, Timeout(afterOpen.cmd.value.msg));
            && afterOpen.next.isOpen
            && !fired.next.isOpen
            && fired.cmd == None
  {
  }

  /**
   * A mouse dismissal does not retire a pending timer: after Close arms its
   * timer and a hiding mouse event arrives, that timer still fires and
   * opens the overlay again.
   */
  lemma DismissKeepsPendingTimer(s: State, kind: MouseEventType)
    requires s.closeTimeout != 0 && kind in s.mouseHide
    ensures var closed := Close(s, true);
            var dismissed := Update(closed.next, Mouse(kind));
            var fired := Update(dismissed.next, Timeout(closed.cmd.value.msg));
            && !dismissed.next.isOpen
            && dismissed.next.tag == closed.next.tag
            && fired.next.isOpen
  {
  }
}
