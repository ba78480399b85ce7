/**
 Grep matches with context: what is to be printed, and the one-pass scanner that buffers
 lines. Each line carries a match flag; `after` and `before` are the -A and -B values, never
 negative once the input is validated. Lines count from 1. What matters is which lines come
 out, their match marks and the "--" separators.
 */
module Grep {

  datatype Output = Separator | Line(number: nat, isMatch: bool)

  // ---- What is to be printed ----

  predicate IsMatch(matches: seq<bool>, m: int) {
    1 <= m <= |matches| && matches[m - 1]
  }

  /** Some match has this line within its context. */
  ghost predicate InContext(matches: seq<bool>, after: nat, before: nat, line: int) {
    exists m :: IsMatch(matches, m) && m - before <= line <= m + after
  }

  ghost function Shown(matches: seq<bool>, after: nat, before: nat): seq<bool> {
    seq(|matches|, i requires 0 <= i < |matches| => InContext(matches, after, before, i + 1))
  }

  /** The shown lines in order, with a separator at each gap between them. */
  function Layout(shown: seq<bool>, matches: seq<bool>): seq<Output>
    requires |shown| <= |matches|
  {
    var n := |shown|;
    if n == 0 then []
    else
      var above := Layout(shown[..n - 1], matches);
      if !shown[n - 1] then above
      else if above != [] && !shown[n - 2] then above + [Separator, Line(n, matches[n - 1])]
      else above + [Line(n, matches[n - 1])]
  }

  ghost function Expected(matches: seq<bool>, after: nat, before: nat): seq<Output> {
    Layout(Shown(matches, after, before), matches)
  }

  // ---- What the layout means ----

  predicate Earlier(a: Output, b: Output) {
    a.Line? && b.Line? ==> a.number < b.number
  }

  /** A line after a gap: shown, with the line above not shown and something shown before that. */
  predicate AfterGap(shown: seq<bool>, line: int) {
    2 <= line <= |shown| && shown[line - 1] && !shown[line - 2] && exists p :: 0 <= p < line - 2 && shown[p]
  }

  ghost predicate SeparatorsAtGaps(shown: seq<bool>, out: seq<Output>) {
    forall k :: 0 <= k < |out| && out[k].Line? ==>
      (AfterGap(shown, out[k].number) <==> k > 0 && out[k - 1].Separator?)
  }

  lemma {:induction false} LayoutStart(shown: seq<bool>, matches: seq<bool>)
    requires |shown| <= |matches|
    ensures Layout(shown, matches) == [] <==> forall p :: 0 <= p < |shown| ==> !shown[p]
  {
    if shown != [] { LayoutStart(shown[..|shown| - 1], matches); }
  }

  lemma {:induction false} LayoutEndsInLine(shown: seq<bool>, matches: seq<bool>)
    requires |shown| <= |matches| && Layout(shown, matches) != []
    ensures var out := Layout(shown, matches); out[|out| - 1].Line?
  {
    if !shown[|shown| - 1] { LayoutEndsInLine(shown[..|shown| - 1], matches); }
  }

  /** The last line has a separator above it exactly when it follows a gap. */
  lemma LastLine(shown: seq<bool>, matches: seq<bool>)
    requires 0 < |shown| <= |matches| && shown[|shown| - 1]
    ensures var front := shown[..|shown| - 1];
            Layout(front, matches) != [] && !shown[|shown| - 2] <==> AfterGap(shown, |shown|)
  {
    var front := shown[..|shown| - 1];
    LayoutStart(front, matches);
    if |front| > 0 { assert front[|front| - 1] == shown[|shown| - 2]; }
  }

  lemma {:induction false} LayoutLines(shown: seq<bool>, matches: seq<bool>)
    requires |shown| <= |matches|
    ensures var out := Layout(shown, matches);
            && (forall n: nat, mark: bool :: Line(n, mark) in out <==>
                  1 <= n <= |shown| && shown[n - 1] && mark == matches[n - 1])
            && (forall j, k :: 0 <= j < k < |out| ==> Earlier(out[j], out[k]))
            && (forall k :: 0 <= k < |out| && out[k].Separator? ==> k + 1 < |out| && out[k + 1].Line?)
  {
    var n := |shown|;
    if n > 0 {
      var front := shown[..n - 1];
      var above := Layout(front, matches);
      LayoutLines(front, matches);
      var out := Layout(shown, matches);
      if shown[n - 1] {
        assert forall k :: 0 <= k < |above| ==> out[k] == above[k];
        assert out[|out| - 1] == Line(n, matches[n - 1]);
      }
    }
  }

  lemma {:induction false} SeparatorBeforeGaps(shown: seq<bool>, matches: seq<bool>, k: nat)
    requires |shown| <= |matches| && k < |Layout(shown, matches)| && Layout(shown, matches)[k].Line?
    ensures var out := Layout(shown, matches);
            AfterGap(shown, out[k].number) <==> k > 0 && out[k - 1].Separator?
  {
    var n := |shown|;
    var front := shown[..n - 1];
    var out, above := Layout(shown, matches), Layout(front, matches);
    if k < |above| {
      assert out[k] == above[k] && (k > 0 ==> out[k - 1] == above[k - 1]);
      SeparatorBeforeGaps(front, matches, k);
      LayoutLines(front, matches);
      assert above[k] in above;
      assert forall p :: 0 <= p < n - 1 ==> front[p] == shown[p];
    } else {
      LastLine(shown, matches);
      if above != [] { LayoutEndsInLine(front, matches); }
    }
  }

  lemma SeparatorsMarkGaps(shown: seq<bool>, matches: seq<bool>, out: seq<Output>)
    requires |shown| <= |matches| && out == Layout(shown, matches)
    ensures SeparatorsAtGaps(shown, out)
  {
    hide Layout, AfterGap;
    forall k: nat | k < |out| && out[k].Line?
      ensures AfterGap(shown, out[k].number) <==> k > 0 && out[k - 1].Separator?
    {
      SeparatorBeforeGaps(shown, matches, k);
    }
  }

  /**
   Exactly the shown lines come out, each once, in order and with its match mark; a
   separator stands exactly before each line that follows a gap.
   */
  lemma LayoutMeaning(shown: seq<bool>, matches: seq<bool>)
    requires |shown| <= |matches|
    ensures var out := Layout(shown, matches);
            && (forall n: nat, mark: bool :: Line(n, mark) in out <==>
                  1 <= n <= |shown| && shown[n - 1] && mark == matches[n - 1])
            && (forall j, k :: 0 <= j < k < |out| ==> Earlier(out[j], out[k]))
            && (forall k :: 0 <= k < |out| && out[k].Separator? ==> k + 1 < |out| && out[k + 1].Line?)
            && SeparatorsAtGaps(shown, out)
  {
    hide *;
    LayoutLines(shown, matches);
    SeparatorsMarkGaps(shown, matches, Layout(shown, matches));
  }

  // ---- The one-pass scanner ----

  /** Lines not shown add nothing. */
  lemma {:induction false} HiddenTail(shown: seq<bool>, longer: seq<bool>, matches: seq<bool>)
    requires shown <= longer && |longer| <= |matches|
    requires forall p :: |shown| <= p < |longer| ==> !longer[p]
    ensures Layout(longer, matches) == Layout(shown, matches)
  {
    if |shown| < |longer| {
      HiddenTail(shown, longer[..|longer| - 1], matches);
    } else {
      assert shown == longer;
    }
  }

  lemma ContextGrows(matches: seq<bool>, after: nat, before: nat, next: bool, line: int)
    ensures InContext(matches + [next], after, before, line) <==>
            InContext(matches, after, before, line)
            || (next && |matches| + 1 - before <= line <= |matches| + 1 + after)
  {
    var longer, n := matches + [next], |matches|;
    if InContext(longer, after, before, line) {
      var m :| IsMatch(longer, m) && m - before <= line <= m + after;
      assert m == n + 1 || IsMatch(matches, m);
    }
    if InContext(matches, after, before, line) {
      var m :| IsMatch(matches, m) && m - before <= line <= m + after;
      assert IsMatch(longer, m);
    }
    if next { assert IsMatch(longer, n + 1); }
  }

  /** The last line put out lies at or below a match, so all lines between the two are out. */
  ghost predicate LastIsBelowMatch(matches: seq<bool>, after: nat, last: nat) {
    exists m :: IsMatch(matches, m) && m <= last <= m + after
  }

  function FirstHeld(lines: nat, before: nat, last: nat): nat {
    if last + 1 > lines + 1 - before then last + 1 else lines + 1 - before
  }

  /** The lines held back, newest last, never more than `before`. */
  function Hold(held: seq<nat>, line: nat, before: nat): seq<nat> {
    if before == 0 then held
    else if |held| + 1 > before then (held + [line])[1..]
    else held + [line]
  }

  /** Where the scanner stands: the last line put out, the lines held back, the lines still to follow. */
  ghost predicate ScanState(matches: seq<bool>, after: nat, before: nat,
                            held: seq<nat>, pending: nat, emitted: bool, last: nat)
  {
    var n := |matches|;
    && last <= n
    && (emitted <==> last > 0)
    && (emitted ==> LastIsBelowMatch(matches, after, last))
    && (forall line :: last < line <= n ==> !InContext(matches, after, before, line))
    && (forall line :: n < line ==> (InContext(matches, after, before, line) <==> line <= n + pending))
    && (pending > 0 ==> last == n)
    && |held| == n + 1 - FirstHeld(n, before, last)
    && (forall k :: 0 <= k < |held| ==> held[k] == FirstHeld(n, before, last) + k)
  }

  lemma MatchArrives(seen: seq<bool>, after: nat, before: nat, held: seq<nat>, pending: nat, emitted: bool, last: nat)
    requires ScanState(seen, after, before, held, pending, emitted, last)
    ensures ScanState(seen + [true], after, before, [], after, true, |seen| + 1)
  {
    forall line
      ensures InContext(seen + [true], after, before, line) <==>
              InContext(seen, after, before, line) || |seen| + 1 - before <= line <= |seen| + 1 + after
    {
      ContextGrows(seen, after, before, true, line);
    }
    assert IsMatch(seen + [true], |seen| + 1);
  }

  lemma ShownAtMatch(seen: seq<bool>, after: nat, before: nat, held: seq<nat>, pending: nat, emitted: bool, last: nat)
    requires ScanState(seen, after, before, held, pending, emitted, last)
    ensures var n, first := |seen|, FirstHeld(|seen|, before, last);
            var shown, shown' := Shown(seen, after, before), Shown(seen + [true], after, before);
            && (forall p :: 0 <= p < last ==> shown'[p] == shown[p])
            && (forall p :: last <= p < first - 1 ==> !shown'[p])
            && (forall p :: first - 1 <= p <= n ==> shown'[p])
            && (forall p :: last <= p < n ==> !seen[p])
  {
    var n := |seen|;
    forall line
      ensures InContext(seen + [true], after, before, line) <==>
              InContext(seen, after, before, line) || n + 1 - before <= line <= n + 1 + after
    {
      ContextGrows(seen, after, before, true, line);
    }
    if emitted {
      var m :| IsMatch(seen, m) && m <= last <= m + after;
      forall line | n + 1 - before <= line <= last
        ensures InContext(seen, after, before, line)
      {
        assert IsMatch(seen, m) && m - before <= line <= m + after;
      }
    }
    forall p | last <= p < n ensures !seen[p] {
      if seen[p] { assert IsMatch(seen, p + 1) && InContext(seen, after, before, p + 1); }
    }
  }

  lemma LineFollows(seen: seq<bool>, after: nat, before: nat, held: seq<nat>, pending: nat, emitted: bool, last: nat)
    requires ScanState(seen, after, before, held, pending, emitted, last)
    ensures Shown(seen + [false], after, before) == Shown(seen, after, before) + [pending > 0]
    ensures pending > 0 ==> ScanState(seen + [false], after, before, held, pending - 1, emitted, |seen| + 1)
    ensures pending == 0 ==>
            ScanState(seen + [false], after, before, Hold(held, |seen| + 1, before), 0, emitted, last)
  {
    var n := |seen|;
    forall line
      ensures InContext(seen + [false], after, before, line) <==> InContext(seen, after, before, line)
    {
      ContextGrows(seen, after, before, false, line);
    }
    assert forall m :: IsMatch(seen + [false], m) <==> IsMatch(seen, m);
    if pending > 0 {
      assert InContext(seen, after, before, n + 1);
      var m :| IsMatch(seen, m) && m - before <= n + 1 <= m + after;
      assert IsMatch(seen + [false], m);
    } else if emitted {
      var m :| IsMatch(seen, m) && m <= last <= m + after;
      assert IsMatch(seen + [false], m);
    }
  }

  lemma LayoutOfShown(shown: seq<bool>, matches: seq<bool>, p: nat)
    requires p < |shown| <= |matches| && shown[p]
    ensures var above := Layout(shown[..p], matches);
            Layout(shown[..p + 1], matches) ==
            above + (if p > 0 && above != [] && !shown[p - 1] then [Separator] else []) + [Line(p + 1, matches[p])]
  {
    hide Layout;
    var longer := shown[..p + 1];
    assert |longer| == p + 1 && longer[..p] == shown[..p] && longer[p] == shown[p];
    assert p > 0 ==> longer[p - 1] == shown[p - 1];
    LayoutStep(longer, matches);
  }

  lemma LayoutStep(shown: seq<bool>, matches: seq<bool>)
    requires 0 < |shown| <= |matches| && shown[|shown| - 1]
    ensures var n, above := |shown|, Layout(shown[..|shown| - 1], matches);
            Layout(shown, matches) ==
            above + (if n > 1 && above != [] && !shown[n - 2] then [Separator] else []) + [Line(n, matches[n - 1])]
  {
    assert |shown| == 1 ==> Layout(shown[..0], matches) == [];
  }

  lemma NoGap(shown: seq<bool>, matches: seq<bool>, p: nat)
    requires 0 < p < |shown| <= |matches| && shown[p - 1] && shown[p]
    ensures Layout(shown[..p + 1], matches) == Layout(shown[..p], matches) + [Line(p + 1, matches[p])]
  {
    LayoutOfShown(shown, matches, p);
  }

  lemma {:induction false} LayoutAgrees(shown: seq<bool>, m: seq<bool>, m': seq<bool>)
    requires |shown| <= |m| && m <= m'
    ensures Layout(shown, m) == Layout(shown, m')
  {
    if shown != [] { LayoutAgrees(shown[..|shown| - 1], m, m'); }
  }

  /** Lines up to the one above `first` are out; from `first` to the match at `lineNo` all are to be put out. */
  ghost predicate MatchDue(shown: seq<bool>, all: seq<bool>, first: nat,
                           held: seq<nat>, emitted: bool, last: nat, out: seq<Output>, lineNo: nat)
  {
    && last < first <= lineNo == |shown| == |all| == first + |held|
    && (forall k :: 0 <= k < |held| ==> held[k] == first + k)
    && (forall p :: first - 1 <= p < lineNo ==> shown[p] && (all[p] <==> p == lineNo - 1))
    && out == Layout(shown[..first - 1], all)
    && (first > 1 && out != [] && !shown[first - 2] <==> emitted && first > last + 1)
  }

  /** What is out before the held lines and the match: everything so far, and a separator at a gap. */
  lemma BeforeTheMatch(seen: seq<bool>, after: nat, before: nat, held: seq<nat>, pending: nat, emitted: bool, last: nat)
    requires ScanState(seen, after, before, held, pending, emitted, last)
    ensures MatchDue(Shown(seen + [true], after, before), seen + [true], FirstHeld(|seen|, before, last),
                     held, emitted, last, Expected(seen, after, before), |seen| + 1)
  {
    var first, all := FirstHeld(|seen|, before, last), seen + [true];
    var shown, shown' := Shown(seen, after, before), Shown(all, after, before);
    ShownAtMatch(seen, after, before, held, pending, emitted, last);
    var lit := shown[..last];
    assert shown'[..last] == lit;
    forall p | last <= p < |shown| ensures !shown[p] {
      assert !InContext(seen, after, before, p + 1);
    }
    if emitted { LastIsShown(seen, after, before, last); }
    assert emitted ==> lit[last - 1];
    SameUpTo(shown, shown', seen, all, last, first - 1);
  }

  /** What two lists of flags lay out alike when they agree up to `last` and hide the rest. */
  lemma SameUpTo(shown: seq<bool>, shown': seq<bool>, matches: seq<bool>, all: seq<bool>, last: nat, end: nat)
    requires last <= |shown| <= |matches| && last <= end <= |shown'| <= |all| && matches <= all
    requires forall p :: 0 <= p < last ==> shown'[p] == shown[p]
    requires forall p :: last <= p < |shown| ==> !shown[p]
    requires forall p :: last <= p < end ==> !shown'[p]
    requires last > 0 ==> shown[last - 1]
    ensures var above := Layout(shown'[..end], all);
            && above == Layout(shown, matches)
            && (end > 0 && above != [] && !shown'[end - 1] <==> last > 0 && end > last)
  {
    hide Layout;
    var lit := shown[..last];
    assert shown'[..last] == lit;
    HiddenTail(lit, shown, matches);
    HiddenTail(lit, shown'[..end], all);
    LayoutAgrees(lit, matches, all);
    LayoutStart(lit, matches);
    if last > 0 { assert lit[last - 1]; }
  }

  lemma LastIsShown(seen: seq<bool>, after: nat, before: nat, last: nat)
    requires 0 < last <= |seen| && LastIsBelowMatch(seen, after, last)
    ensures InContext(seen, after, before, last)
  {
    var m :| IsMatch(seen, m) && m <= last <= m + after;
    assert IsMatch(seen, m) && m - before <= last <= m + after;
  }

  /** A line that follows its match directly, or another such line, needs no separator. */
  lemma PendingLine(seen: seq<bool>, after: nat, before: nat, held: seq<nat>, pending: nat, emitted: bool, last: nat)
    requires ScanState(seen, after, before, held, pending, emitted, last) && pending > 0
    ensures ScanState(seen + [false], after, before, held, pending - 1, emitted, |seen| + 1)
    ensures Expected(seen + [false], after, before) == Expected(seen, after, before) + [Line(|seen| + 1, false)]
  {
    var n := |seen|;
    var shown, shown' := Shown(seen, after, before), Shown(seen + [false], after, before);
    LineFollows(seen, after, before, held, pending, emitted, last);
    LayoutAgrees(shown, seen, seen + [false]);
    LayoutOfShown(shown', seen + [false], n);
    assert shown'[..n] == shown && shown'[..n + 1] == shown';
    assert InContext(seen, after, before, n + 1);
    var m :| IsMatch(seen, m) && m - before <= n + 1 <= m + after;
    assert InContext(seen, after, before, n);
    assert shown'[n - 1];
  }

  /** A line outside every context so far puts nothing out. */
  lemma QuietLine(seen: seq<bool>, after: nat, before: nat, held: seq<nat>, emitted: bool, last: nat)
    requires ScanState(seen, after, before, held, 0, emitted, last)
    ensures ScanState(seen + [false], after, before, Hold(held, |seen| + 1, before), 0, emitted, last)
    ensures Expected(seen + [false], after, before) == Expected(seen, after, before)
  {
    var shown, shown' := Shown(seen, after, before), Shown(seen + [false], after, before);
    LineFollows(seen, after, before, held, 0, emitted, last);
    LayoutAgrees(shown, seen, seen + [false]);
    assert shown'[..|seen|] == shown;
  }

  /** The first line to come out, after a separator if one is due. */
  lemma MatchDueStart(shown: seq<bool>, all: seq<bool>, first: nat,
                      held: seq<nat>, emitted: bool, last: nat, out: seq<Output>, lineNo: nat)
    requires MatchDue(shown, all, first, held, emitted, last, out, lineNo)
    ensures last < first && first + |held| == lineNo == |shown| == |all| && all[lineNo - 1]
    ensures held != [] ==> held[0] == first
    ensures Layout(shown[..first], all) ==
            out + (if emitted && first > last + 1 then [Separator] else []) + [Line(first, all[first - 1])]
  {
    hide Layout;
    LayoutOfShown(shown, all, first - 1);
  }

  /** Each held line is followed by the next with no separator between. */
  lemma MatchDueNext(shown: seq<bool>, all: seq<bool>, first: nat,
                     held: seq<nat>, emitted: bool, last: nat, out: seq<Output>, lineNo: nat, k: nat)
    requires MatchDue(shown, all, first, held, emitted, last, out, lineNo) && k < |held|
    ensures held[k] == first + k && !all[first - 1 + k]
    ensures Layout(shown[..first + k + 1], all) == Layout(shown[..first + k], all) + [Line(first + k + 1, all[first + k])]
  {
    hide Layout;
    NoGap(shown, all, first + k);
  }

  /** The separator if one is due, the held lines and the matching line. */
  method EmitMatch(ghost shown: seq<bool>, ghost all: seq<bool>, ghost first: nat,
                   held: seq<nat>, emitted: bool, last: nat, out: seq<Output>, lineNo: nat) returns (out': seq<Output>)
    requires MatchDue(shown, all, first, held, emitted, last, out, lineNo)
    ensures out' == Layout(shown, all)
  {
    hide Layout, MatchDue;
    MatchDueStart(shown, all, first, held, emitted, last, out, lineNo);
    out' := out;
    var lastOut := last;
    var firstOutputLine := if |held| > 0 then held[0] else lineNo;
    if emitted && firstOutputLine > last + 1 { out' := out' + [Separator]; }
    for k := 0 to |held|
      invariant lastOut < first + k
      invariant Layout(shown[..first + k], all) == out' + [Line(first + k, all[first - 1 + k])]
    {
      MatchDueNext(shown, all, first, held, emitted, last, out, lineNo, k);
      if held[k] > lastOut {
        out' := out' + [Line(held[k], false)];
        lastOut := held[k];
      }
    }
    if lineNo > lastOut { out' := out' + [Line(lineNo, true)]; }
    assert shown[..|shown|] == shown;
  }

  method ScanContent(matches: seq<bool>, after: nat, before: nat) returns (out: seq<Output>)
    ensures out == Expected(matches, after, before)
  {
    out := [];
    var held: seq<nat> := [];
    var pending: nat := 0;
    var emitted := false;
    var last: nat := 0;
    assert ScanState([], after, before, held, pending, emitted, last);
    assert Expected([], after, before) == [];
    hide ScanState, Expected, Shown, Layout, MatchDue, FirstHeld;
    for n := 0 to |matches|
      invariant last <= n
      invariant ScanState(matches[..n], after, before, held, pending, emitted, last)
      invariant out == Expected(matches[..n], after, before)
    {
      ghost var seen := matches[..n];
      assert matches[..n + 1] == seen + [matches[n]];
      if matches[n] {
        MatchArrives(seen, after, before, held, pending, emitted, last);
        BeforeTheMatch(seen, after, before, held, pending, emitted, last);
        out := EmitMatch(Shown(seen + [true], after, before), seen + [true], FirstHeld(n, before, last),
          held, emitted, last, out, n + 1);
        held := [];
        last := n + 1;
        pending := after;
        emitted := true;
      } else {
        if pending > 0 {
          PendingLine(seen, after, before, held, pending, emitted, last);
          if n + 1 > last {
            out := out + [Line(n + 1, false)];
            last := n + 1;
          }
          pending := pending - 1;
        } else {
          QuietLine(seen, after, before, held, emitted, last);
          if before > 0 {
            held := held + [n + 1];
            if |held| > before { held := held[1..]; }
          }
        }
      }
    }
    assert matches[..|matches|] == matches;
  }
}
