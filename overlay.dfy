/**
 * The overlay component: the process-wide identifier counter and the `Model`
 * whose methods update its visibility fields in place and render it.
 */
module Overlay {
  import opened Wrappers
  import opened Lines
  import opened Compositor
  import V = Visibility

  /** The process-wide counter behind `nextID`; each identifier it hands out is new. */
  class IdAllocator {
    var lastId: int

    constructor ()
      ensures lastId == 0
    {
      lastId := 0;
    }

    /** `nextID()`: advance the counter and hand out its new value. */
    method Next() returns (id: int)
      modifies this
      ensures lastId == old(lastId) + 1
      ensures id == lastId
    {
      lastId := lastId + 1;
      id := lastId;
    }
  }

  /** One overlay: its identity, generation, visibility, timeouts, hiding events and alignment. */
  class Model {
    const id: int
    var tag: int
    var isOpen: bool
    var OpenTimeout: nat
    var CloseTimeout: nat
    var MouseHide: seq<V.MouseEventType>
    var Vertical: Position
    var Horizontal: Position

    /**
     * `New` followed by the configuring options: a fresh identifier from the
     * shared counter, generation 0, closed.
     */
    constructor (ids: IdAllocator, openTimeout: nat, closeTimeout: nat,
                 mouseHide: seq<V.MouseEventType>, vertical: Position, horizontal: Position)
      modifies ids
      ensures ids.lastId == old(ids.lastId) + 1 && id == ids.lastId
      ensures tag == 0 && !isOpen
      ensures OpenTimeout == openTimeout && CloseTimeout == closeTimeout && MouseHide == mouseHide
      ensures Vertical == vertical && Horizontal == horizontal
    {
      var next := ids.Next();
      id := next;
      tag := 0;
      isOpen := false;
      OpenTimeout, CloseTimeout, MouseHide := openTimeout, closeTimeout, mouseHide;
      Vertical, Horizontal := vertical, horizontal;
    }

    /** The visibility fields as a value. */
    function State(): V.State
      reads this
    {
      V.State(id, tag, isOpen, OpenTimeout, CloseTimeout, MouseHide)
    }

    /** `open(withTimeout)`. */
    method OpenWith(withTimeout: bool) returns (cmd: V.Cmd)
      modifies this`isOpen, this`tag
      ensures V.Step(State(), cmd) == V.Open(old(State()), withTimeout)
    {
      isOpen := true;
      if withTimeout && OpenTimeout != 0 {
        tag := tag + 1;
        return V.NextTimeout(State(), OpenTimeout);
      }
      return None;
    }

    /** `Open()`: show the overlay and arm the open timeout if one is configured. */
    method Open() returns (cmd: V.Cmd)
      modifies this`isOpen, this`tag
      ensures V.Step(State(), cmd) == V.Open(old(State()), true)
    {
      cmd := OpenWith(true);
    }

    /** `close(withTimeout)`. */
    method CloseWith(withTimeout: bool) returns (cmd: V.Cmd)
      modifies this`isOpen, this`tag
      ensures V.Step(State(), cmd) == V.Close(old(State()), withTimeout)
    {
      isOpen := false;
      if withTimeout && CloseTimeout != 0 {
        tag := tag + 1;
        return V.NextTimeout(State(), CloseTimeout);
      }
      return None;
    }

    /** `Close()`: hide the overlay and arm the close timeout if one is configured. */
    method Close() returns (cmd: V.Cmd)
      modifies this`isOpen, this`tag
      ensures V.Step(State(), cmd) == V.Close(old(State()), true)
    {
      cmd := CloseWith(true);
    }

    /** `mouseHideHas(eventType)`: a linear search of the hiding kinds. */
    method MouseHideHas(eventType: V.MouseEventType) returns (found: bool)
      ensures found <==> eventType in MouseHide
    {
      for i := 0 to |MouseHide|
        invariant eventType !in MouseHide[..i]
      {
        if MouseHide[i] == eventType {
          return true;
        }
      }
      return false;
    }

    /** `Update(msg)`: react to a timer, a mouse event or anything else. */
    method Update(msg: V.Msg) returns (cmd: V.Cmd)
      modifies this`isOpen, this`tag
      ensures V.Step(State(), cmd) == V.Update(old(State()), msg)
    {
      match msg
      case Timeout(t) =>
        if t.id == id && t.tag == tag {
          if t.state {
            cmd := CloseWith(false);
          } else {
            cmd := OpenWith(false);
          }
        } else {
          cmd := None;
        }
      case Mouse(kind) =>
        cmd := None;
        if |MouseHide| > 0 {
          var has := MouseHideHas(kind);
          if has {
            cmd := CloseWith(false);
          }
        }
      case Other =>
        cmd := None;
    }

    /**
     * `Render(overlay, backdrop)`: the backdrop itself while closed; while
     * open, the backdrop with the overlay spliced in at the offsets the
     * alignment gives.
     */
    method Render(overlay: string, backdrop: string) returns (r: string)
      requires isOpen ==> Fits(overlay, backdrop)
      ensures !isOpen ==> r == backdrop
      ensures isOpen ==> r == Compose(overlay, backdrop, Horizontal, Vertical)
    {
      if !isOpen {
        return backdrop;
      }
      var ow := Width(overlay);
      var leftOffset := LeftOffset(overlay, backdrop, Horizontal);
      var topOffset := TopOffset(overlay, backdrop, Vertical);
      var blines, olines := Split(backdrop), Split(overlay);
      var lines := new string[|blines|](k requires 0 <= k < |blines| => blines[k]);
      assert lines[..] == blines;
      SpliceInPlace(lines, olines, leftOffset, topOffset, ow);
      r := Join(lines[..]);
    }
  }

  /**
   * The loop of `Render`: overwrite rows `top .. top + |olines|` of the split
   * backdrop `lines` with the backdrop row's first `left` cells, the overlay
   * row, and what of the backdrop row lies past `left + ow` cells.
   */
  method SpliceInPlace(lines: array<string>, olines: seq<string>, left: nat, top: nat, ow: nat)
    requires top + |olines| <= lines.Length
    modifies lines
    ensures lines[..] == Splice(old(lines[..]), olines, left, top, ow)
  {
    ghost var blines := lines[..];
    SplicedUpToStart(blines, olines, left, top, ow);
    for i := top to top + |olines|
      invariant SplicedUpTo(lines[..], blines, olines, left, top, ow, i)
    {
      SplicedUpToStep(lines[..], blines, olines, left, top, ow, i);
      var line := lines[i];
      var leftPart := Truncate(line, left);
      var leftSub := Truncate(line, left + ow);
      var right := line[|leftSub|..];
      lines[i] := leftPart + olines[i - top] + right;
    }
    SplicedUpToEnd(lines[..], blines, olines, left, top, ow);
  }

  /** Two overlays created from the same counter have different identifiers, the later one larger. */
  method NewOverlaysDistinct(ids: IdAllocator) returns (a: Model, b: Model)
    modifies ids
    ensures a.id < b.id
    ensures b.id == old(ids.lastId) + 2
  {
    a := new Model(ids, 0, 0, [], CENTER, CENTER);
    b := new Model(ids, 0, 0, [], CENTER, CENTER);
  }
}
