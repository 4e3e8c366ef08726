/**
 * Text blocks as the compositor sees them: a block is a string whose lines are
 * separated by '\n'. Splitting and joining follow Go's `strings.Split` and
 * `strings.Join` with the separator "\n"; measuring and truncating follow
 * `lipgloss.Size` and `lipgloss.Style.MaxWidth` for plain text in which every
 * character occupies exactly one terminal cell.
 */
module Lines {

  /** No line of `lines` contains the line break. */
  predicate NoBreaks(lines: seq<string>)
  {
    forall i :: 0 <= i < |lines| ==> '\n' !in lines[i]
  }

  /**
   * `strings.Split(s, "\n")`: the pieces of `s` between line breaks. There is
   * always at least one piece (the empty string splits into one empty line),
   * and no piece holds a line break.
   */
  function Split(s: string): (lines: seq<string>)
    ensures |lines| >= 1
    ensures NoBreaks(lines)
  {
    if s == [] then [""]
    else
      var rest := Split(s[1..]);
      if s[0] == '\n' then [""] + rest
      else [[s[0]] + rest[0]] + rest[1..]
  }

  /** `strings.Join(lines, "\n")`: the lines with one line break between neighbours. */
  function Join(lines: seq<string>): string
  {
    if |lines| == 0 then ""
    else if |lines| == 1 then lines[0]
    else lines[0] + "\n" + Join(lines[1..])
  }

  /** Joining the pieces of a split gives back the original text. */
  lemma {:induction false} JoinSplit(s: string)
    ensures Join(Split(s)) == s
  {
    if s != [] {
      var rest := Split(s[1..]);
      JoinSplit(s[1..]);
      if s[0] == '\n' {
        assert Split(s) == [""] + rest;
        assert ([""] + rest)[1..] == rest;
      } else {
        var lines := [[s[0]] + rest[0]] + rest[1..];
        assert Split(s) == lines;
        if |rest| > 1 {
          assert lines[1..] == rest[1..];
          assert Join(rest) == rest[0] + "\n" + Join(rest[1..]);
          assert [s[0]] + s[1..] == s;
        } else {
          assert [s[0]] + s[1..] == s;
        }
      }
    }
  }

  /** Text without a line break glues itself to the first piece of what follows. */
  lemma {:induction false} SplitPrefix(a: string, b: string)
    requires '\n' !in a
    ensures Split(a + b) == [a + Split(b)[0]] + Split(b)[1..]
  {
    var sb := Split(b);
    if a == [] {
      assert a + b == b && a + sb[0] == sb[0];
      assert sb == [sb[0]] + sb[1..];
    } else {
      assert a[0] in a;
      assert (a + b)[1..] == a[1..] + b;
      assert '\n' !in a[1..] by {
        forall j | 0 <= j < |a[1..]| ensures a[1..][j] != '\n' {
          assert a[1..][j] == a[j + 1];
        }
      }
      SplitPrefix(a[1..], b);
      var rest := Split(a[1..] + b);
      assert rest == [a[1..] + sb[0]] + sb[1..];
      assert (a + b)[0] == a[0];
      assert Split(a + b) == [[a[0]] + rest[0]] + rest[1..];
      assert [a[0]] + (a[1..] + sb[0]) == a + sb[0];
    }
  }

  /** Splitting joined lines gives the lines back, provided none holds a line break. */
  lemma {:induction false} SplitJoin(lines: seq<string>)
    requires |lines| >= 1 && NoBreaks(lines)
    ensures Split(Join(lines)) == lines
  {
    if |lines| == 1 {
      SplitPrefix(lines[0], "");
      assert lines[0] + "" == lines[0];
    } else {
      var tail := lines[1..];
      assert NoBreaks(tail) by {
        forall i | 0 <= i < |tail| ensures '\n' !in tail[i] {
          assert tail[i] == lines[i + 1];
        }
      }
      SplitJoin(tail);
      var rest := "\n" + Join(tail);
      assert Join(lines) == lines[0] + rest;
      SplitPrefix(lines[0], rest);
      assert rest[0] == '\n' && rest[1..] == Join(tail);
      assert Split(rest) == [""] + tail;
      assert Split(rest)[0] == "" && Split(rest)[1..] == tail;
      assert lines[0] + "" == lines[0];
      assert lines == [lines[0]] + tail;
    }
  }

  /** The length of the longest line; 0 for no lines. */
  function MaxLen(lines: seq<string>): (w: nat)
    ensures forall i :: 0 <= i < |lines| ==> |lines[i]| <= w
    ensures |lines| > 0 ==> exists i :: 0 <= i < |lines| && |lines[i]| == w
    ensures |lines| == 0 ==> w == 0
  {
    if |lines| == 0 then 0
    else
      var w := MaxLen(lines[1..]);
      assert forall i :: 1 <= i < |lines| ==> lines[i] == lines[1..][i - 1];
      if |lines[0]| >= w then |lines[0]| else w
  }

  /** Width of a block in cells (`lipgloss.Width`): its longest line. */
  function Width(block: string): (w: nat)
    ensures forall i :: 0 <= i < |Split(block)| ==> |Split(block)[i]| <= w
    ensures exists i :: 0 <= i < |Split(block)| && |Split(block)[i]| == w
  {
    MaxLen(Split(block))
  }

  /** Height of a block in lines (`lipgloss.Height`): one more than its line breaks. */
  function Height(block: string): (h: nat)
    ensures h >= 1
  {
    |Split(block)|
  }

  /** A split has one piece more than the text has line breaks, so this is a block's `Height`. */
  lemma {:induction false} SplitCountsBreaks(s: string)
    ensures |Split(s)| == multiset(s)['\n'] + 1
  {
    if s != [] {
      SplitCountsBreaks(s[1..]);
      assert s == [s[0]] + s[1..];
      assert multiset(s) == multiset([s[0]]) + multiset(s[1..]);
    }
  }

  /** `lipgloss.NewStyle().MaxWidth(k).Render(line)` on plain text: the first `k` cells. */
  function Truncate(line: string, k: nat): (r: string)
    ensures |r| <= k && |r| <= |line|
    ensures |r| == k || r == line
    ensures r == line[..|r|]
  {
    if k < |line| then line[..k] else line
  }

  /** What is left of `line` after its first `k` cells. */
  function Remainder(line: string, k: nat): (r: string)
    ensures Truncate(line, k) + r == line
  {
    line[|Truncate(line, k)|..]
  }
}
