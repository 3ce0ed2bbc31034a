/**
 * Formatting a list of strings into lines of limited length. Strings are sequences of bytes.
 *
 * A layout of the values is the list of the positions at which its lines end.
 */
module Wrapping {
  import opened Wrappers
  import opened Ordering

  const MAX_INT: int := 0x7fff_ffff_ffff_ffff
  const UINTS: int := 0x1_0000_0000_0000_0000

  type uint = n: int | 0 <= n < UINTS

  function Decorated(values: seq<string>, prependWith: string, appendWith: string): (r: seq<string>)
    ensures |r| == |values| && forall i :: 0 <= i < |values| ==> r[i] == prependWith + values[i] + appendWith
  {
    seq(|values|, i requires 0 <= i < |values| => prependWith + values[i] + appendWith)
  }

  /** The limit as a signed integer: 0 stands for the largest one, and large values wrap. */
  function Limit(lineLength: uint): int {
    if lineLength == 0 then MAX_INT else if lineLength <= MAX_INT then lineLength else lineLength - UINTS
  }

  function Spaces(n: nat): (r: string)
    ensures |r| == n && forall i :: 0 <= i < n ==> r[i] == ' '
  {
    seq(n, _ => ' ')
  }

  // ---------------------------------------------------------------- layouts

  function Separator(vs: seq<string>, i: nat): string {
    if i + 1 < |vs| then "," else ""
  }

  /** One line with the values from p up to e; every value but the very last is followed by a comma. */
  function LineText(vs: seq<string>, p: nat, e: nat): string
    requires p < e <= |vs|
    decreases e
  {
    if e == p + 1 then vs[p] + Separator(vs, p)
    else LineText(vs, p, e - 1) + " " + vs[e - 1] + Separator(vs, e - 1)
  }

  /** Only a line with a single value may be longer than the limit. */
  predicate LineFits(vs: seq<string>, p: nat, e: nat, limit: int)
    requires p < e <= |vs|
  {
    e == p + 1 || |LineText(vs, p, e)| <= limit
  }

  /** The lines go on from p to the last value, none empty and each within the limit. */
  predicate Layout(vs: seq<string>, p: nat, ends: seq<nat>, limit: int)
    requires p <= |vs|
    decreases |ends|
  {
    if ends == [] then p == |vs|
    else p < ends[0] <= |vs| && LineFits(vs, p, ends[0], limit) && Layout(vs, ends[0], ends[1..], limit)
  }

  function Render(vs: seq<string>, p: nat, ends: seq<nat>, limit: int, indent: string): string
    requires p <= |vs| && Layout(vs, p, ends, limit)
    decreases |ends|
  {
    if ends == [] then ""
    else indent + LineText(vs, p, ends[0]) +
         (if ends[0] == |vs| then "" else "\n" + Render(vs, ends[0], ends[1..], limit, indent))
  }

  function Extend(vs: seq<string>, p: nat, e: nat, limit: int): (r: nat)
    requires p < e <= |vs| && LineFits(vs, p, e, limit)
    ensures e <= r <= |vs| && LineFits(vs, p, r, limit)
    ensures r < |vs| ==> !LineFits(vs, p, r + 1, limit)
    decreases |vs| - e
  {
    if e == |vs| || !LineFits(vs, p, e + 1, limit) then e else Extend(vs, p, e + 1, limit)
  }

  /** The layout that fills each line as far as it goes. */
  function Greedy(vs: seq<string>, p: nat, limit: int): (ends: seq<nat>)
    requires p <= |vs|
    ensures Layout(vs, p, ends, limit)
    decreases |vs| - p
  {
    if p == |vs| then [] else var e := Extend(vs, p, p + 1, limit); [e] + Greedy(vs, e, limit)
  }

  // ---------------------------------------------------------------- the greedy layout has the fewest lines

  lemma {:induction false} ShorterEnd(vs: seq<string>, p: nat, e: nat, f: nat)
    requires p < e <= f <= |vs|
    ensures |LineText(vs, p, e)| <= |LineText(vs, p, f)|
    decreases f
  {
    if e < f { ShorterEnd(vs, p, e, f - 1); }
  }

  lemma {:induction false} LaterStart(vs: seq<string>, p: nat, q: nat, e: nat)
    requires p <= q < e <= |vs|
    ensures |LineText(vs, q, e)| <= |LineText(vs, p, e)|
    decreases e
  {
    if q + 1 < e { LaterStart(vs, p, q, e - 1); }
  }

  /** Part of a line that fits also fits. */
  lemma PartFits(vs: seq<string>, p: nat, q: nat, e: nat, f: nat, limit: int)
    requires p <= q < e <= f <= |vs| && LineFits(vs, p, f, limit)
    ensures LineFits(vs, q, e, limit)
  {
    if f > p + 1 {
      LaterStart(vs, p, q, e);
      ShorterEnd(vs, p, e, f);
    }
  }

  /** A line filled from within another reaches at least as far. */
  lemma ExtendReaches(vs: seq<string>, p: nat, q: nat, f: nat, limit: int)
    requires p <= q < f <= |vs| && LineFits(vs, p, f, limit)
    ensures Extend(vs, q, q + 1, limit) >= f
  {
    var e := Extend(vs, q, q + 1, limit);
    if e < f { PartFits(vs, p, q, e + 1, f, limit); }
  }

  /** A greedy layout that starts no earlier than another needs no more lines. */
  lemma {:induction false} GreedyStaysAhead(vs: seq<string>, p: nat, ends: seq<nat>, q: nat, limit: int)
    requires p <= q <= |vs| && Layout(vs, p, ends, limit)
    ensures |Greedy(vs, q, limit)| <= |ends|
    decreases |ends|
  {
    if q < |vs| {
      var f, rest := ends[0], ends[1..];
      if f <= q {
        GreedyStaysAhead(vs, f, rest, q, limit);
      } else {
        ExtendReaches(vs, p, q, f, limit);
        var e := Extend(vs, q, q + 1, limit);
        GreedyStaysAhead(vs, f, rest, e, limit);
        assert Greedy(vs, q, limit) == [e] + Greedy(vs, e, limit);
      }
    }
  }

  /** No layout of the values has fewer lines. */
  lemma GreedyIsShortest(vs: seq<string>, ends: seq<nat>, limit: int)
    requires Layout(vs, 0, ends, limit)
    ensures |Greedy(vs, 0, limit)| <= |ends|
  {
    GreedyStaysAhead(vs, 0, ends, 0, limit);
  }

  /** All values share one line exactly when that line fits. */
  lemma OneLineExactly(vs: seq<string>, limit: int)
    requires vs != []
    ensures |Greedy(vs, 0, limit)| == 1 <==> LineFits(vs, 0, |vs|, limit)
  {
    if LineFits(vs, 0, |vs|, limit) {
      assert Layout(vs, 0, [|vs|], limit);
      GreedyIsShortest(vs, [|vs|], limit);
    }
  }

  lemma {:induction false} NegativeLimitBreaks(vs: seq<string>, p: nat, limit: int)
    requires p <= |vs| && limit < 0
    ensures |Greedy(vs, p, limit)| == |vs| - p
    decreases |vs| - p
  {
    if p < |vs| {
      assert Extend(vs, p, p + 1, limit) == p + 1;
      NegativeLimitBreaks(vs, p + 1, limit);
    }
  }

  /** A line length of zero means no limit, but one past the signed range means a line per value. */
  lemma ExtremeLimits(vs: seq<string>, lineLength: uint)
    requires vs != []
    ensures lineLength == 0 && |LineText(vs, 0, |vs|)| <= MAX_INT ==> |Greedy(vs, 0, Limit(lineLength))| == 1
    ensures lineLength > MAX_INT ==> |Greedy(vs, 0, Limit(lineLength))| == |vs|
  {
    OneLineExactly(vs, Limit(lineLength));
    if lineLength > MAX_INT { NegativeLimitBreaks(vs, 0, Limit(lineLength)); }
  }

  /** Any other line length is the limit: the values share one line exactly when they fit into it. */
  lemma OrdinaryLimits(vs: seq<string>, lineLength: uint)
    requires |vs| >= 2 && 0 < lineLength <= MAX_INT
    ensures |Greedy(vs, 0, Limit(lineLength))| == 1 <==> |LineText(vs, 0, |vs|)| <= lineLength
  {
    OneLineExactly(vs, Limit(lineLength));
  }

  // ---------------------------------------------------------------- what the text holds

  /** The values in order, each two joined by the filler between them. */
  function Woven(vs: seq<string>, fillers: seq<string>): string
    requires |vs| == |fillers| + 1
    decreases |fillers|
  {
    if fillers == [] then vs[0]
    else Woven(vs[..|fillers|], fillers[..|fillers| - 1]) + fillers[|fillers| - 1] + vs[|fillers|]
  }

  /** A break stands before the values at which a line ends. */
  function Fillers(ends: seq<nat>, n: nat, indent: string): (r: seq<string>)
    ensures |r| == n
  {
    seq(n, i => if i + 1 in ends then ",\n" + indent else ", ")
  }

  lemma {:induction false} EndsAreLater(vs: seq<string>, p: nat, ends: seq<nat>, limit: int, x: nat)
    requires p <= |vs| && Layout(vs, p, ends, limit) && x in ends
    ensures p < x <= |vs|
    decreases |ends|
  {
    if x != ends[0] { EndsAreLater(vs, ends[0], ends[1..], limit, x); }
  }

  /** The text of the values up to e, laid out by `ends`, without the separator after the last. */
  function Upto(vs: seq<string>, ends: seq<nat>, e: nat, indent: string): string
    requires 0 < e <= |vs|
  {
    indent + Woven(vs[..e], Fillers(ends, e - 1, indent))
  }

  lemma UptoStep(vs: seq<string>, ends: seq<nat>, e: nat, indent: string)
    requires 0 < e < |vs|
    ensures Upto(vs, ends, e + 1, indent) ==
            Upto(vs, ends, e, indent) + (if e in ends then ",\n" + indent else ", ") + vs[e]
  {
    var fillers := Fillers(ends, e, indent);
    assert vs[..e + 1][..e] == vs[..e];
    assert fillers[..e - 1] == Fillers(ends, e - 1, indent);
    var woven := Woven(vs[..e], Fillers(ends, e - 1, indent));
    assert Woven(vs[..e + 1], fillers) == woven + fillers[e - 1] + vs[e];
    assert indent + (woven + fillers[e - 1] + vs[e]) == (indent + woven) + fillers[e - 1] + vs[e];
  }

  /** A line carries the text on by its values joined by comma and space. */
  lemma {:induction false} LineWeaves(vs: seq<string>, ends: seq<nat>, p: nat, e: nat, indent: string, before: string)
    requires p < e <= |vs| && forall x :: p < x < e ==> x !in ends
    requires Upto(vs, ends, p + 1, indent) == before + vs[p]
    ensures Upto(vs, ends, e, indent) + Separator(vs, e - 1) == before + LineText(vs, p, e)
    decreases e
  {
    if e > p + 1 {
      LineWeaves(vs, ends, p, e - 1, indent, before);
      UptoStep(vs, ends, e - 1, indent);
      var sofar, line, v := Upto(vs, ends, e - 1, indent), LineText(vs, p, e - 1), vs[e - 1];
      var text := Upto(vs, ends, e, indent);
      assert text == sofar + ", " + v;
      LineStep(vs, p, e, sofar, before);
    }
  }

  lemma LineStep(vs: seq<string>, p: nat, e: nat, sofar: string, before: string)
    requires p + 1 < e <= |vs| && sofar + Separator(vs, e - 2) == before + LineText(vs, p, e - 1)
    ensures sofar + ", " + vs[e - 1] + Separator(vs, e - 1) == before + LineText(vs, p, e)
  {
    var line, v, separator := LineText(vs, p, e - 1), vs[e - 1], Separator(vs, e - 1);
    assert sofar + ", " == (sofar + ",") + " ";
    assert before + (line + " " + v + separator) == (before + line) + " " + v + separator;
  }

  lemma NoBreakWithin(vs: seq<string>, all: seq<nat>, p: nat, ends: seq<nat>, limit: int)
    requires p < |vs| && Layout(vs, p, ends, limit) && forall x :: p < x ==> (x in all <==> x in ends)
    ensures forall x :: p < x < ends[0] ==> x !in all
    ensures forall x :: ends[0] < x ==> (x in all <==> x in ends[1..])
    ensures ends[0] in all
  {
    forall x | p < x < ends[0]
      ensures x !in all
    {
      if x in ends { EndsAreLater(vs, ends[0], ends[1..], limit, x); }
    }
  }

  lemma Regroup(a: string, b: string, c: string, d: string)
    ensures a + b + c + d == a + (b + c + d)
    ensures a + (b + (c + d)) == a + b + c + d
    ensures a + b + c == a + (b + c)
  {
  }

  lemma RenderJoins(vs: seq<string>, p: nat, ends: seq<nat>, limit: int, indent: string, before: string)
    requires p < |vs| && Layout(vs, p, ends, limit)
    ensures var e, here := ends[0], before + indent + LineText(vs, p, ends[0]);
            before + Render(vs, p, ends, limit, indent) ==
            if e == |vs| then here else here + "\n" + Render(vs, e, ends[1..], limit, indent)
  {
    var e, line := ends[0], LineText(vs, p, ends[0]);
    var below := if e == |vs| then "" else "\n" + Render(vs, e, ends[1..], limit, indent);
    assert Render(vs, p, ends, limit, indent) == indent + line + below;
    Regroup(before, indent, line, below);
    if e < |vs| { Regroup(before + indent + line, "\n", Render(vs, e, ends[1..], limit, indent), ""); }
  }

  lemma {:induction false} RenderWeavesFrom(
      vs: seq<string>, all: seq<nat>, p: nat, ends: seq<nat>, limit: int, indent: string, before: string)
    requires p < |vs| && Layout(vs, p, ends, limit)
    requires forall x :: p < x ==> (x in all <==> x in ends)
    requires Upto(vs, all, p + 1, indent) == before + indent + vs[p]
    ensures Upto(vs, all, |vs|, indent) == before + Render(vs, p, ends, limit, indent)
    decreases |ends|
  {
    var e := ends[0];
    NoBreakWithin(vs, all, p, ends, limit);
    LineWeaves(vs, all, p, e, indent, before + indent);
    RenderJoins(vs, p, ends, limit, indent, before);
    if e < |vs| {
      var line := LineText(vs, p, e);
      UptoStep(vs, all, e, indent);
      NextLine(Upto(vs, all, e, indent), before, indent, line, vs[e]);
      RenderWeavesFrom(vs, all, e, ends[1..], limit, indent, before + indent + line + "\n");
    }
  }

  lemma NextLine(sofar: string, before: string, indent: string, line: string, v: string)
    requires sofar + "," == before + indent + line
    ensures sofar + (",\n" + indent) + v == before + indent + line + "\n" + indent + v
  {
    assert sofar + (",\n" + indent) == (sofar + ",") + "\n" + indent;
  }

  /** A rendered layout holds every value once and in order; between two values there is a comma, with
      a space where the line goes on and a break and the indent where it ends. */
  lemma RenderWeaves(vs: seq<string>, ends: seq<nat>, limit: int, indent: string)
    requires vs != [] && Layout(vs, 0, ends, limit)
    ensures Render(vs, 0, ends, limit, indent) == indent + Woven(vs, Fillers(ends, |vs| - 1, indent))
  {
    assert vs[..1] == [vs[0]];
    RenderWeavesFrom(vs, ends, 0, ends, limit, indent, "");
    assert vs[..|vs|] == vs;
  }

  // ---------------------------------------------------------------- the loop

  /** What the loop still writes when the current line began at p and holds the values up to i. */
  function Remaining(vs: seq<string>, p: nat, i: nat, limit: int, indent: string): string
    requires p < i <= |vs|
    decreases |vs| - i
  {
    if i == |vs| then ""
    else if LineFits(vs, p, i + 1, limit) then " " + vs[i] + Separator(vs, i) + Remaining(vs, p, i + 1, limit, indent)
    else "\n" + FromBreak(vs, i, limit, indent)
  }

  /** The same at a line that holds nothing yet. */
  function FromBreak(vs: seq<string>, i: nat, limit: int, indent: string): string
    requires i < |vs|
    decreases |vs| - i, 1
  {
    indent + vs[i] + Separator(vs, i) + Remaining(vs, i, i + 1, limit, indent)
  }

  function Below(vs: seq<string>, e: nat, limit: int, indent: string): string
    requires e <= |vs|
  {
    if e == |vs| then "" else "\n" + Render(vs, e, Greedy(vs, e, limit), limit, indent)
  }

  lemma GreedyRenders(vs: seq<string>, p: nat, limit: int, indent: string)
    requires p < |vs|
    ensures var e := Extend(vs, p, p + 1, limit);
            Render(vs, p, Greedy(vs, p, limit), limit, indent) ==
              indent + (LineText(vs, p, e) + Below(vs, e, limit, indent))
  {
    var e, ends := Extend(vs, p, p + 1, limit), Greedy(vs, p, limit);
    assert ends[0] == e && ends[1..] == Greedy(vs, e, limit);
    Regroup3(indent, LineText(vs, p, e), Below(vs, e, limit, indent));
  }

  datatype Text = Text(bytes: string)

  /** The current line with what the loop still writes behind it, and the filled line with what is
      rendered behind that. */
  function LineAndRemaining(vs: seq<string>, p: nat, i: nat, limit: int, indent: string): Text
    requires p < i <= |vs|
  {
    Text(LineText(vs, p, i) + Remaining(vs, p, i, limit, indent))
  }

  function LineAndBelow(vs: seq<string>, p: nat, e: nat, limit: int, indent: string): Text
    requires p < e <= |vs|
  {
    Text(LineText(vs, p, e) + Below(vs, e, limit, indent))
  }

  lemma LineGrows(vs: seq<string>, p: nat, i: nat, limit: int, indent: string)
    requires p < i < |vs| && LineFits(vs, p, i + 1, limit)
    ensures LineAndRemaining(vs, p, i, limit, indent) == LineAndRemaining(vs, p, i + 1, limit, indent)
  {
    var line, added, rest := LineText(vs, p, i), " " + vs[i] + Separator(vs, i), Remaining(vs, p, i + 1, limit, indent);
    Regroup3(line, added, rest);
    Regroup3(line, " " + vs[i], Separator(vs, i));
    Regroup3(line, " ", vs[i]);
  }

  lemma LineEnds(vs: seq<string>, p: nat, i: nat, limit: int, indent: string)
    requires p < i <= |vs|
    requires i < |vs| ==>
               && !LineFits(vs, p, i + 1, limit)
               && FromBreak(vs, i, limit, indent) == Render(vs, i, Greedy(vs, i, limit), limit, indent)
    ensures LineAndRemaining(vs, p, i, limit, indent) == LineAndBelow(vs, p, i, limit, indent)
  {
  }

  lemma {:induction false} RemainingRenders(vs: seq<string>, p: nat, i: nat, limit: int, indent: string)
    requires p < i <= |vs| && LineFits(vs, p, i, limit)
    ensures LineAndRemaining(vs, p, i, limit, indent) == LineAndBelow(vs, p, Extend(vs, p, i, limit), limit, indent)
    decreases |vs| - i, 1
  {
    if i < |vs| && LineFits(vs, p, i + 1, limit) {
      RemainingRenders(vs, p, i + 1, limit, indent);
      LineGrows(vs, p, i, limit, indent);
    } else {
      if i < |vs| { FromBreakRenders(vs, i, limit, indent); }
      LineEnds(vs, p, i, limit, indent);
    }
  }

  lemma {:induction false} FromBreakRenders(vs: seq<string>, i: nat, limit: int, indent: string)
    requires i < |vs|
    ensures FromBreak(vs, i, limit, indent) == Render(vs, i, Greedy(vs, i, limit), limit, indent)
    decreases |vs| - i, 0
  {
    RemainingRenders(vs, i, i + 1, limit, indent);
    GreedyRenders(vs, i, limit, indent);
    Regroup(indent, vs[i], Separator(vs, i), Remaining(vs, i, i + 1, limit, indent));
  }

  /** The current line began at `start`, holds the values up to i and is `current` long. */
  predicate OnLine(vs: seq<string>, start: int, i: nat, current: nat, limit: int)
    requires i <= |vs|
  {
    0 <= start < i && LineFits(vs, start, i, limit) && current == |LineText(vs, start, i)|
  }

  /** The text so far and what is still to come; None for a line that is not as it should be. */
  function Whole(
      vs: seq<string>, start: int, i: nat, current: nat, limit: int, indent: string, text: string): Option<Text>
    requires i <= |vs|
  {
    if i == |vs| then Some(Text(text))
    else if current == 0 then Some(Text(text + FromBreak(vs, i, limit, indent)))
    else if OnLine(vs, start, i, current, limit) then Some(Text(text + Remaining(vs, start, i, limit, indent)))
    else None
  }

  lemma Regroup3(a: string, b: string, c: string)
    ensures a + (b + c) == a + b + c
  {
  }

  /** The first value of a line. */
  method BeginLine(vs: seq<string>, ghost start: int, i: nat, ghost limit: int, pre: string, text: string)
    returns (longer: string, current: nat)
    requires i < |vs|
    ensures Whole(vs, i, i + 1, current, limit, pre, longer) == Whole(vs, start, i, 0, limit, pre, text)
  {
    var isLast := i == -1 + |vs|;
    var separator := if isLast then "" else ",";
    Regroup3(text, pre + vs[i] + separator, Remaining(vs, i, i + 1, limit, pre));
    longer, current := text + (pre + vs[i] + separator), |vs[i]| + |separator|;
    assert longer + "" == longer;
  }

  /** One more value on a line, if it fits. */
  method ExtendLine(
      vs: seq<string>, ghost start: int, i: nat, current: nat, limit: int, ghost pre: string, text: string)
    returns (fits: bool, longer: string, length: nat)
    requires i < |vs| && current != 0 && Whole(vs, start, i, current, limit, pre, text).Some?
    ensures fits ==>
              Whole(vs, start, i + 1, length, limit, pre, longer) == Whole(vs, start, i, current, limit, pre, text)
    ensures !fits ==>
              && longer == text && length == current
              && Whole(vs, start, i, 0, limit, pre, text + "\n") == Whole(vs, start, i, current, limit, pre, text)
  {
    var isLast := i == -1 + |vs|;
    var separator := if isLast then "" else ",";
    assert |LineText(vs, start, i + 1)| == |LineText(vs, start, i)| + (1 + |vs[i]| + |separator|);
    if current + (1 + |vs[i]| + |separator|) > limit {
      Regroup3(text, "\n", FromBreak(vs, i, limit, pre));
      return false, text, current;
    }
    Regroup3(text, " " + vs[i] + separator, Remaining(vs, start, i + 1, limit, pre));
    fits, longer, length := true, text + (" " + vs[i] + separator), current + (1 + |vs[i]| + |separator|);
    assert longer + "" == longer;
  }

  /** One value: the first of a line, the next on it, or, if it does not fit, the end of the line before it. */
  method TakeValue(
      vs: seq<string>, ghost start: int, i: nat, current: nat, limit: int, pre: string, text: string)
    returns (fits: bool, longer: string, length: nat, ghost line: int)
    requires i < |vs| && Whole(vs, start, i, current, limit, pre, text).Some?
    ensures Whole(vs, line, if fits then i + 1 else i, length, limit, pre, longer) ==
            Whole(vs, start, i, current, limit, pre, text)
    ensures !fits ==> length == 0 < current
  {
    if current == 0 {
      longer, length := BeginLine(vs, start, i, limit, pre, text);
      return true, longer, length, i;
    }
    fits, longer, length := ExtendLine(vs, start, i, current, limit, pre, text);
    line := start;
    if !fits { longer, length := text + "\n", 0; }
  }

  lemma WholeAtStart(vs: seq<string>, limit: int, pre: string)
    requires vs != []
    ensures Whole(vs, 0, 0, 0, limit, pre, "") == Some(Text(Render(vs, 0, Greedy(vs, 0, limit), limit, pre)))
  {
    FromBreakRenders(vs, 0, limit, pre);
    assert "" + FromBreak(vs, 0, limit, pre) == FromBreak(vs, 0, limit, pre);
  }

  /** The loop over the surrounded values. A value that does not fit ends the line and is taken again. */
  method Wrap(vs: seq<string>, limit: int, pre: string) returns (text: string)
    requires vs != []
    ensures text == Render(vs, 0, Greedy(vs, 0, limit), limit, pre)
  {
    ghost var start := 0;
    text := "";
    var currentLineLength: nat := 0;
    var i := 0;
    ghost var whole := Whole(vs, 0, 0, 0, limit, pre, "");
    WholeAtStart(vs, limit, pre);
    while i < |vs|
      invariant 0 <= i <= |vs|
      invariant whole.Some?
      invariant Whole(vs, start, i, currentLineLength, limit, pre, text) == whole
      decreases |vs| - i, currentLineLength
    {
      var fits;
      fits, text, currentLineLength, start := TakeValue(vs, start, i, currentLineLength, limit, pre, text);
      if !fits { i := i - 1; }
      i := i + 1;
    }
  }

  /** Two or more values are laid out greedily; none leaves the bare indent, and a single one is written
      as it is, not surrounded. */
  method FormatSlice(
      values: seq<string>, lineLength: uint, indent: nat, prependWith: string, appendWith: string, sort: bool)
    returns (text: string)
    requires indent <= MAX_INT
    ensures var sorted := if sort then Sort(values) else values;
            var vs, limit := Decorated(sorted, prependWith, appendWith), Limit(lineLength);
            text == (if |values| == 0 then Spaces(indent)
                     else if |values| == 1 then Spaces(indent) + sorted[0]
                     else Render(vs, 0, Greedy(vs, 0, limit), limit, Spaces(indent)))
  {
    var sortedValues := if sort then Sort(values) else values;
    var pre := Spaces(indent);
    if |sortedValues| == 0 { return pre; }
    if |sortedValues| == 1 { return pre + sortedValues[0]; }
    text := Wrap(Decorated(sortedValues, prependWith, appendWith), Limit(lineLength), pre);
  }
}
