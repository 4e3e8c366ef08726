/**
 * The compositor: placing an overlay block on a backdrop block at a given
 * alignment and splicing it in, line by line, leaving the backdrop untouched
 * outside the overlay's footprint.
 */
module Compositor {
  import opened Lines

  /** A fraction `num / den`. */
  datatype Ratio = Ratio(num: nat, den: nat)

  /**
   * An alignment (`lipgloss.Position`): a fraction in [0, 1], where 0 puts the
   * overlay at the start of the backdrop, 1 at its end and 1/2 in its centre.
   */
  type Position = r: Ratio | 0 < r.den && r.num <= r.den witness Ratio(0, 1)

  const START: Position := Ratio(0, 1)
  const CENTER: Position := Ratio(1, 2)
  const END: Position := Ratio(1, 1)

  /** The exact-fraction counterpart of `int(float64(d) * float64(p))`: the share `p` of the free space `d`, rounded down. */
  function Scale(d: nat, p: Position): (r: nat)
    ensures r <= d
    ensures p.num == 0 ==> r == 0
    ensures p.num == p.den ==> r == d
    ensures p == CENTER ==> r == d / 2
  {
    var x := d * p.num;
    MulMonotone(d, p.num, p.den);
    DivAtMost(x, d, p.den);
    if p.num == p.den then MulDivCancel(d, p.den); x / p.den else x / p.den
  }

  /** The offset is the exact share rounded down: `Scale(d, p)` is the largest `r` with `r * den <= d * num`. */
  lemma ScaleFloor(d: nat, p: Position)
    ensures Scale(d, p) * p.den <= d * p.num < (Scale(d, p) + 1) * p.den
  {
    DivFloor(d * p.num, p.den);
  }

  /** Euclidean division rounds down: the quotient times the divisor lies within one divisor below the dividend. */
  lemma DivFloor(x: nat, den: nat)
    requires 0 < den
    ensures (x / den) * den <= x < (x / den + 1) * den
  {
    var q, rem := x / den, x % den;
    assert x == q * den + rem && 0 <= rem < den;
    assert (q + 1) * den == q * den + den;
  }

  /** Distributing a product over a difference. */
  lemma MulSub(a: int, b: int, c: int)
    ensures (a - b) * c == a * c - b * c
  {
  }

  lemma MulMonotone(d: nat, x: nat, y: nat)
    requires x <= y
    ensures d * x <= d * y
  {
  }

  /** Division by `den` undoes multiplication by `den`. */
  lemma MulDivCancel(d: nat, den: nat)
    requires 0 < den
    ensures d * den / den == d
  {
    var x := d * den;
    var q, rem := x / den, x % den;
    assert x == q * den + rem && 0 <= rem < den;
    MulSub(d, q, den);
    assert (d - q) * den == rem;
    if d - q >= 1 {
      MulMonotone(den, 1, d - q);
    } else if d - q <= -1 {
      MulMonotone(den, 1, q - d);
      MulSub(q, d, den);
    }
  }

  /** A quotient by `den` of at most `y * den` is at most `y`. */
  lemma DivAtMost(x: nat, y: nat, den: nat)
    requires 0 < den && x <= y * den
    ensures x / den <= y
  {
    var q, rem := x / den, x % den;
    assert x == q * den + rem && 0 <= rem < den;
    if q > y {
      MulMonotone(den, y + 1, q);
    }
  }

  /** The overlay fits inside the backdrop in both dimensions. */
  predicate Fits(overlay: string, backdrop: string)
  {
    Width(overlay) <= Width(backdrop) && Height(overlay) <= Height(backdrop)
  }

  /** Column at which the overlay starts. */
  function LeftOffset(overlay: string, backdrop: string, horizontal: Position): (left: nat)
    requires Fits(overlay, backdrop)
    ensures left + Width(overlay) <= Width(backdrop)
  {
    Scale(Width(backdrop) - Width(overlay), horizontal)
  }

  /** Row at which the overlay starts. */
  function TopOffset(overlay: string, backdrop: string, vertical: Position): (top: nat)
    requires Fits(overlay, backdrop)
    ensures top + Height(overlay) <= Height(backdrop)
  {
    Scale(Height(backdrop) - Height(overlay), vertical)
  }

  /**
   * One backdrop line with one overlay line laid over it from column `left`:
   * the backdrop's first `left` cells, the overlay line, and whatever of the
   * backdrop line lies beyond the overlay's width `ow`.
   */
  function SpliceLine(line: string, oline: string, left: nat, ow: nat): (r: string)
    ensures left + ow <= |line| && |oline| == ow ==>
              && |r| == |line|
              && r[..left] == line[..left]
              && r[left..left + ow] == oline
              && r[left + ow..] == line[left + ow..]
  {
    Truncate(line, left) + oline + Remainder(line, left + ow)
  }

  /** The backdrop lines with rows `top .. top + |olines|` spliced. */
  function Splice(blines: seq<string>, olines: seq<string>, left: nat, top: nat, ow: nat): seq<string>
    requires top + |olines| <= |blines|
  {
    seq(|blines|, i requires 0 <= i < |blines| =>
      if top <= i < top + |olines| then SpliceLine(blines[i], olines[i - top], left, ow)
      else blines[i])
  }

  /** `lines` is `blines` with the rows from `top` up to (not including) `i` spliced. */
  ghost predicate SplicedUpTo(lines: seq<string>, blines: seq<string>, olines: seq<string>, left: nat, top: nat, ow: nat, i: nat)
    requires top <= i <= top + |olines| <= |blines|
  {
    && |lines| == |blines|
    && forall k :: 0 <= k < |lines| ==>
         lines[k] == if top <= k < i then SpliceLine(blines[k], olines[k - top], left, ow) else blines[k]
  }

  /** Nothing is spliced yet at the start. */
  lemma SplicedUpToStart(blines: seq<string>, olines: seq<string>, left: nat, top: nat, ow: nat)
    requires top + |olines| <= |blines|
    ensures SplicedUpTo(blines, blines, olines, left, top, ow, top)
  {
  }

  /** Splicing row `i` extends the spliced rows by one. */
  lemma SplicedUpToStep(lines: seq<string>, blines: seq<string>, olines: seq<string>, left: nat, top: nat, ow: nat, i: nat)
    requires top <= i < top + |olines| <= |blines|
    requires SplicedUpTo(lines, blines, olines, left, top, ow, i)
    ensures lines[i] == blines[i]
    ensures SplicedUpTo(lines[i := SpliceLine(lines[i], olines[i - top], left, ow)], blines, olines, left, top, ow, i + 1)
  {
  }

  /** Once every overlay row is spliced, the lines are the splice. */
  lemma SplicedUpToEnd(lines: seq<string>, blines: seq<string>, olines: seq<string>, left: nat, top: nat, ow: nat)
    requires top + |olines| <= |blines|
    requires SplicedUpTo(lines, blines, olines, left, top, ow, top + |olines|)
    ensures lines == Splice(blines, olines, left, top, ow)
  {
  }

  /** Cutting and gluing lines without breaks introduces no break. */
  lemma SpliceNoBreaks(blines: seq<string>, olines: seq<string>, left: nat, top: nat, ow: nat)
    requires top + |olines| <= |blines|
    requires NoBreaks(blines) && NoBreaks(olines)
    ensures NoBreaks(Splice(blines, olines, left, top, ow))
  {
    var lines := Splice(blines, olines, left, top, ow);
    forall i | 0 <= i < |lines| ensures '\n' !in lines[i] {
      if top <= i < top + |olines| {
        var line := blines[i];
        var l, r := Truncate(line, left), Remainder(line, left + ow);
        assert '\n' !in olines[i - top];
        assert '\n' !in l by {
          forall j | 0 <= j < |l| ensures l[j] != '\n' { assert l[j] == line[j]; }
        }
        assert '\n' !in r by {
          var n := |line| - |r|;
          assert line == line[..n] + r;
          forall j | 0 <= j < |r| ensures r[j] != '\n' { assert r[j] == line[n + j]; }
        }
      }
    }
  }

  /**
   * `lines` is the backdrop `blines` with the overlay `olines` laid over it at
   * column `left` and row `top`: as many lines as the backdrop, the backdrop's
   * own lines outside rows `top .. top + |olines|`, and inside them each
   * backdrop line with the matching overlay line spliced in.
   */
  ghost predicate Overlaid(lines: seq<string>, blines: seq<string>, olines: seq<string>, left: nat, top: nat, ow: nat)
    requires top + |olines| <= |blines|
  {
    && |lines| == |blines|
    && (forall i :: 0 <= i < |blines| && !(top <= i < top + |olines|) ==> lines[i] == blines[i])
    && (forall i :: top <= i < top + |olines| ==> lines[i] == SpliceLine(blines[i], olines[i - top], left, ow))
  }

  /** Joining spliced lines and splitting them again gives the overlaid lines. */
  lemma {:induction false} SpliceRows(blines: seq<string>, olines: seq<string>, left: nat, top: nat, ow: nat)
    requires top + |olines| <= |blines|
    requires |blines| >= 1 && NoBreaks(blines) && NoBreaks(olines)
    ensures Overlaid(Split(Join(Splice(blines, olines, left, top, ow))), blines, olines, left, top, ow)
  {
    var lines := Splice(blines, olines, left, top, ow);
    SpliceNoBreaks(blines, olines, left, top, ow);
    SplitJoin(lines);
    SpliceOverlaid(blines, olines, left, top, ow);
  }

  /** Splice lays the overlay lines over the backdrop lines. */
  lemma SpliceOverlaid(blines: seq<string>, olines: seq<string>, left: nat, top: nat, ow: nat)
    requires top + |olines| <= |blines|
    ensures Overlaid(Splice(blines, olines, left, top, ow), blines, olines, left, top, ow)
  {
    var lines := Splice(blines, olines, left, top, ow);
    assert |lines| == |blines|;
    assert forall i :: 0 <= i < |blines| && !(top <= i < top + |olines|) ==> lines[i] == blines[i];
    assert forall i :: top <= i < top + |olines| ==> lines[i] == SpliceLine(blines[i], olines[i - top], left, ow);
  }

  /**
   * The composed block (Render of an open overlay): the backdrop's lines with
   * the overlay's lines laid over them at the offsets the alignment gives.
   */
  function Compose(overlay: string, backdrop: string, horizontal: Position, vertical: Position): (r: string)
    requires Fits(overlay, backdrop)
    ensures Overlaid(Split(r), Split(backdrop), Split(overlay), LeftOffset(overlay, backdrop, horizontal),
                     TopOffset(overlay, backdrop, vertical), Width(overlay))
  {
    var blines, olines := Split(backdrop), Split(overlay);
    var left, top, ow := LeftOffset(overlay, backdrop, horizontal), TopOffset(overlay, backdrop, vertical), Width(overlay);
    SpliceRows(blines, olines, left, top, ow);
    Join(Splice(blines, olines, left, top, ow))
  }

  /**
   * A 10 x 5 backdrop of dots with the 3 x 1 overlay "XXX", centred in both
   * directions: the overlay lands on row 2, columns 3 to 5, and every other
   * character of the backdrop stays.
   */
  lemma CenteredScenario()
    ensures var dots := "..........";
            var backdrop := Join([dots, dots, dots, dots, dots]);
            && Fits("XXX", backdrop)
            && LeftOffset("XXX", backdrop, CENTER) == 3
            && TopOffset("XXX", backdrop, CENTER) == 2
            && Compose("XXX", backdrop, CENTER, CENTER) == Join([dots, dots, "...XXX....", dots, dots])
  {
    var dots := "..........";
    var blines := [dots, dots, dots, dots, dots];
    var backdrop := Join(blines);
    SplitJoin(blines);
    assert Join(["XXX"]) == "XXX";
    SplitJoin(["XXX"]);
    assert Width(backdrop) == 10 by {
      assert forall i :: 0 <= i < |blines| ==> |blines[i]| == 10;
      assert MaxLen(blines) >= |blines[0]|;
    }
    assert Width("XXX") == 3;
    assert Height(backdrop) == 5 && Height("XXX") == 1;
    assert LeftOffset("XXX", backdrop, CENTER) == 3;
    assert TopOffset("XXX", backdrop, CENTER) == 2;
    assert SpliceLine(dots, "XXX", 3, 3) == "...XXX...." by {
      assert Truncate(dots, 3) == "...";
      assert Remainder(dots, 6) == "....";
    }
    assert Splice(blines, ["XXX"], 3, 2, 3) == [dots, dots, "...XXX....", dots, dots];
  }
}
