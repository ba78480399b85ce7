/** The other rendering of grep matches with context: line ranges, merged where they touch, and printed. */
module GrepRanges {
  import opened Grep

  /** First and last line of a block to print, counted from 0. */
  datatype Range = Range(start: nat, end: nat)

  /** The matching lines of the file, in ascending order. */
  ghost predicate MatchList(found: seq<nat>, matches: seq<bool>) {
    && (forall j, k :: 0 <= j < k < |found| ==> found[j] < found[k])
    && (forall m: nat :: m in found <==> IsMatch(matches, m))
  }

  ghost predicate Near(found: seq<nat>, after: nat, before: nat, line: int) {
    exists k :: 0 <= k < |found| && found[k] - before <= line <= found[k] + after
  }

  ghost predicate Covered(ranges: seq<Range>, i: int) {
    exists r :: 0 <= r < |ranges| && ranges[r].start <= i <= ranges[r].end
  }

  /** Blocks within the file, in order, with at least one line between any two. */
  ghost predicate Spaced(ranges: seq<Range>, lines: nat) {
    && (forall r :: 0 <= r < |ranges| ==> ranges[r].start <= ranges[r].end < lines)
    && (forall q, r :: 0 <= q < r < |ranges| ==> ranges[q].end + 1 < ranges[r].start)
  }

  function Merge(ranges: seq<Range>, start: nat, end: nat): (merged: seq<Range>)
    ensures merged != [] && (merged[|merged| - 1].start == start
                             || (ranges != [] && merged[|merged| - 1].start == ranges[|ranges| - 1].start))
  {
    if ranges == [] then [Range(start, end)]
    else
      var last := |ranges| - 1;
      if start > ranges[last].end + 1 then ranges + [Range(start, end)]
      else if end > ranges[last].end then ranges[last := ranges[last].(end := end)]
      else ranges
  }

  lemma MergeStaysSpaced(ranges: seq<Range>, start: nat, end: nat, lines: nat)
    requires Spaced(ranges, lines) && start <= end < lines
    requires ranges != [] ==> ranges[|ranges| - 1].start <= start
    ensures Spaced(Merge(ranges, start, end), lines)
  {}

  lemma MergeCovers(ranges: seq<Range>, start: nat, end: nat, i: int)
    requires start <= end && (ranges != [] ==> ranges[|ranges| - 1].start <= start)
    requires ranges != [] ==> ranges[|ranges| - 1].start <= ranges[|ranges| - 1].end
    ensures Covered(Merge(ranges, start, end), i) <==> Covered(ranges, i) || start <= i <= end
  {
    var merged, last := Merge(ranges, start, end), |Merge(ranges, start, end)| - 1;
    assert Covered(merged, i) <==> Covered(merged[..last], i) || merged[last].start <= i <= merged[last].end by {
      LastCovers(merged, i);
    }
    if ranges != [] {
      LastCovers(ranges, i);
      if last < |ranges| { assert merged[..last] == ranges[..last]; } else { assert merged[..last] == ranges; }
    }
  }

  lemma LastCovers(ranges: seq<Range>, i: int)
    requires ranges != []
    ensures var last := |ranges| - 1;
            Covered(ranges, i) <==> Covered(ranges[..last], i) || ranges[last].start <= i <= ranges[last].end
  {
    var last := |ranges| - 1;
    var front := ranges[..last];
    if Covered(ranges, i) {
      var r :| 0 <= r < |ranges| && ranges[r].start <= i <= ranges[r].end;
      if r < last { assert front[r].start <= i <= front[r].end; }
    }
    if Covered(front, i) {
      var r :| 0 <= r < |front| && front[r].start <= i <= front[r].end;
      assert ranges[r].start <= i <= ranges[r].end;
    }
  }

  lemma NearGrows(found: seq<nat>, j: nat, after: nat, before: nat, line: int)
    requires j < |found|
    ensures Near(found[..j + 1], after, before, line) <==>
            Near(found[..j], after, before, line) || found[j] - before <= line <= found[j] + after
  {
    var longer, shorter := found[..j + 1], found[..j];
    if Near(longer, after, before, line) {
      var k :| 0 <= k < |longer| && longer[k] - before <= line <= longer[k] + after;
      if k < j { assert shorter[k] - before <= line <= shorter[k] + after; }
    }
    if Near(shorter, after, before, line) {
      var k :| 0 <= k < |shorter| && shorter[k] - before <= line <= shorter[k] + after;
      assert longer[k] - before <= line <= longer[k] + after;
    }
    assert longer[j] == found[j];
  }

  lemma NearIsInContext(found: seq<nat>, matches: seq<bool>, after: nat, before: nat, line: int)
    requires MatchList(found, matches)
    ensures Near(found, after, before, line) <==> InContext(matches, after, before, line)
  {
    if Near(found, after, before, line) {
      var k :| 0 <= k < |found| && found[k] - before <= line <= found[k] + after;
      assert found[k] in found && IsMatch(matches, found[k]);
    }
    if InContext(matches, after, before, line) {
      var m :| IsMatch(matches, m) && m - before <= line <= m + after;
      var n: nat := m;
      assert n in found;
      var k :| 0 <= k < |found| && found[k] == n;
      assert found[k] - before <= line <= found[k] + after;
    }
  }

  /** The blocks hold exactly the lines near one of these matches. */
  ghost predicate Covers(ranges: seq<Range>, found: seq<nat>, after: nat, before: nat, lines: nat) {
    forall i :: 0 <= i < lines ==> (Covered(ranges, i) <==> Near(found, after, before, i + 1))
  }

  lemma CoversMore(ranges: seq<Range>, found: seq<nat>, j: nat, after: nat, before: nat, lines: nat, start: nat, end: nat)
    requires j < |found| && Spaced(ranges, lines) && Covers(ranges, found[..j], after, before, lines)
    requires 1 <= found[j] <= lines
    requires start == if before < found[j] then found[j] - 1 - before else 0
    requires end == if found[j] - 1 + after < lines then found[j] - 1 + after else lines - 1
    requires ranges != [] ==> ranges[|ranges| - 1].start <= start
    ensures Spaced(Merge(ranges, start, end), lines)
    ensures Covers(Merge(ranges, start, end), found[..j + 1], after, before, lines)
  {
    MergeStaysSpaced(ranges, start, end, lines);
    hide Spaced, Covered, Near, Merge;
    forall line: int ensures Near(found[..j + 1], after, before, line) <==>
            Near(found[..j], after, before, line) || found[j] - before <= line <= found[j] + after
    {
      NearGrows(found, j, after, before, line);
    }
    var merged := Merge(ranges, start, end);
    forall i | 0 <= i < lines
      ensures Covered(merged, i) <==> Near(found[..j + 1], after, before, i + 1)
    {
      MergeCovers(ranges, start, end, i);
    }
  }

  lemma NothingCovered(found: seq<nat>, after: nat, before: nat, lines: nat)
    ensures Spaced([], lines) && Covers([], found[..0], after, before, lines)
  {}

  lemma MatchListAt(found: seq<nat>, matches: seq<bool>, j: nat)
    requires MatchList(found, matches) && j < |found|
    ensures 1 <= found[j] <= |matches| && (j > 0 ==> found[j - 1] < found[j])
  {
    assert found[j] in found && IsMatch(matches, found[j]);
  }

  /** A block that touches or overlaps the last one extends it. */
  method AddRange(ranges: seq<Range>, start: nat, end: nat) returns (merged: seq<Range>)
    ensures merged == Merge(ranges, start, end)
  {
    merged := ranges;
    if |merged| > 0 {
      var last := |merged| - 1;
      if start <= merged[last].end + 1 {
        if end > merged[last].end { merged := merged[last := merged[last].(end := end)]; }
      } else {
        merged := merged + [Range(start, end)];
      }
    } else {
      merged := merged + [Range(start, end)];
    }
  }

  /** The merged blocks cover exactly the lines within some match's context. */
  method MergeRanges(found: seq<nat>, ghost matches: seq<bool>, lines: nat, after: nat, before: nat)
      returns (ranges: seq<Range>)
    requires MatchList(found, matches) && lines == |matches|
    ensures ShowsRanges(Shown(matches, after, before), ranges)
  {
    hide *;
    ranges := [];
    NothingCovered(found, after, before, lines);
    for j := 0 to |found|
      invariant Spaced(ranges, lines) && Covers(ranges, found[..j], after, before, lines)
      invariant ranges != [] ==> j > 0 && (ranges[|ranges| - 1].start == 0
                                           || ranges[|ranges| - 1].start + before < found[j - 1])
    {
      MatchListAt(found, matches, j);
      var start: int := found[j] - 1 - before;
      if start < 0 { start := 0; }
      var end := found[j] - 1 + after;
      if end >= lines { end := lines - 1; }
      CoversMore(ranges, found, j, after, before, lines, start, end);
      ranges := AddRange(ranges, start, end);
    }
    assert found[..|found|] == found;
    CoversContext(ranges, found, matches, after, before);
  }

  lemma CoversContext(ranges: seq<Range>, found: seq<nat>, matches: seq<bool>, after: nat, before: nat)
    requires MatchList(found, matches) && Covers(ranges, found, after, before, |matches|)
    requires Spaced(ranges, |matches|)
    ensures ShowsRanges(Shown(matches, after, before), ranges)
  {
    hide MatchList, Covered, InContext, Near;
    forall line: int ensures Near(found, after, before, line) <==> InContext(matches, after, before, line) {
      NearIsInContext(found, matches, after, before, line);
    }
  }

  ghost predicate ShowsRanges(shown: seq<bool>, ranges: seq<Range>) {
    && Spaced(ranges, |shown|)
    && forall i :: 0 <= i < |shown| ==> (shown[i] <==> Covered(ranges, i))
  }

  method HasMatch(found: seq<nat>, ghost matches: seq<bool>, line: nat) returns (isMatch: bool)
    requires MatchList(found, matches)
    ensures isMatch <==> IsMatch(matches, line)
  {
    isMatch := false;
    for k := 0 to |found|
      invariant !isMatch && line !in found[..k]
    {
      if found[k] == line {
        isMatch := true;
        assert line in found;
        break;
      }
    }
  }

  /** One block, printed line by line. */
  method PrintRange(found: seq<nat>, ghost matches: seq<bool>, ghost shown: seq<bool>, range: Range, before: seq<Output>)
      returns (out: seq<Output>)
    requires MatchList(found, matches) && range.start <= range.end < |shown| == |matches|
    requires forall p :: range.start <= p <= range.end ==> shown[p]
    requires Layout(shown[..range.start + 1], matches) == before + [Line(range.start + 1, matches[range.start])]
    ensures out == Layout(shown[..range.end + 1], matches)
  {
    out := before;
    hide Layout, MatchList;
    for i := range.start to range.end + 1
      invariant i > range.start ==> out == Layout(shown[..i], matches)
      invariant i == range.start ==> out == before
    {
      var isMatch := HasMatch(found, matches, i + 1);
      if i > range.start { NoGap(shown, matches, i); }
      out := out + [Line(i + 1, isMatch)];
    }
  }

  /** Merging ranges prints the same lines, marks and separators as the one-pass scanner. */
  method RenderContent(found: seq<nat>, matches: seq<bool>, after: nat, before: nat) returns (out: seq<Output>)
    requires MatchList(found, matches)
    ensures out == Expected(matches, after, before)
  {
    hide *;
    var ranges := MergeRanges(found, matches, |matches|, after, before);
    ghost var shown := Shown(matches, after, before);
    ShownBasics(matches, after, before);
    out := [];
    var prevEnd: int := -1;
    for r := 0 to |ranges|
      invariant prevEnd == if r == 0 then -1 else ranges[r - 1].end
      invariant -1 <= prevEnd < |shown| && out == Layout(shown[..prevEnd + 1], matches)
    {
      var range := ranges[r];
      RangeShows(ranges, r, shown, prevEnd);
      RangeStarts(shown, matches, range.start, prevEnd);
      if prevEnd >= 0 && range.start > prevEnd + 1 { out := out + [Separator]; }
      out := PrintRange(found, matches, shown, range, out);
      prevEnd := range.end;
    }
    LastRange(ranges, shown, prevEnd);
    HiddenTail(shown[..prevEnd + 1], shown, matches);
  }

  /** Both renderings of one file agree, line by line, mark by mark and separator by separator. */
  method RenderBothWays(found: seq<nat>, matches: seq<bool>, after: nat, before: nat)
      returns (streamed: seq<Output>, merged: seq<Output>)
    requires MatchList(found, matches)
    ensures streamed == merged
  {
    streamed := ScanContent(matches, after, before);
    merged := RenderContent(found, matches, after, before);
  }

  lemma ShownBasics(matches: seq<bool>, after: nat, before: nat)
    ensures var shown := Shown(matches, after, before);
            && |shown| == |matches| && Layout(shown[..0], matches) == []
            && Expected(matches, after, before) == Layout(shown, matches)
  {}

  /** Below the last block nothing is shown. */
  lemma LastRange(ranges: seq<Range>, shown: seq<bool>, prevEnd: int)
    requires ShowsRanges(shown, ranges)
    requires prevEnd == if ranges == [] then -1 else ranges[|ranges| - 1].end
    ensures forall p :: prevEnd < p < |shown| ==> !shown[p]
  {}

  /** Between one block and the next no line is shown, and every line of a block is. */
  lemma RangeShows(ranges: seq<Range>, r: nat, shown: seq<bool>, prevEnd: int)
    requires r < |ranges| && ShowsRanges(shown, ranges)
    requires prevEnd == if r == 0 then -1 else ranges[r - 1].end
    ensures ranges[r].start <= ranges[r].end < |shown| && shown[ranges[r].start]
    ensures prevEnd < ranges[r].start && (prevEnd >= 0 ==> prevEnd + 1 < ranges[r].start && shown[prevEnd])
    ensures forall p :: ranges[r].start <= p <= ranges[r].end ==> shown[p]
    ensures forall p :: prevEnd < p < ranges[r].start ==> !shown[p]
  {
    forall p | ranges[r].start <= p <= ranges[r].end ensures shown[p] { assert Covered(ranges, p); }
    forall p | prevEnd < p < ranges[r].start ensures !shown[p] {
      forall q | 0 <= q < |ranges| ensures !(ranges[q].start <= p <= ranges[q].end) {
        if q < r - 1 { assert ranges[q].end < ranges[r - 1].start; }
        if r < q { assert ranges[r].end < ranges[q].start; }
      }
    }
    if r > 0 { assert ranges[r - 1].start <= prevEnd <= ranges[r - 1].end && Covered(ranges, prevEnd); }
  }

  lemma RangeStarts(shown: seq<bool>, matches: seq<bool>, start: nat, prevEnd: int)
    requires -1 <= prevEnd < start < |shown| == |matches| && shown[start]
    requires prevEnd >= 0 ==> prevEnd + 1 < start && shown[prevEnd]
    requires forall p :: prevEnd < p < start ==> !shown[p]
    ensures Layout(shown[..start + 1], matches) ==
            Layout(shown[..prevEnd + 1], matches)
            + (if prevEnd >= 0 && start > prevEnd + 1 then [Separator] else [])
            + [Line(start + 1, matches[start])]
  {
    hide Layout;
    var above := shown[..start];
    HiddenTail(shown[..prevEnd + 1], above, matches);
    LayoutOfShown(shown, matches, start);
    LayoutStart(above, matches);
    if prevEnd >= 0 { assert above[prevEnd]; }
  }
}
