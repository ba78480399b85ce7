/**
 How alike demonstrated action sequences are: the two-row longest common subsequence and
 the consistency score built on it. Scores are exact fractions here.
 */
module Sequences {

  // ---- What a longest common subsequence is ----

  /** `places` says where in `whole` each element of `part` is found, left to right. */
  ghost predicate Embeds<T>(part: seq<T>, whole: seq<T>, places: seq<nat>) {
    && |places| == |part|
    && (forall k :: 0 <= k < |places| ==> places[k] < |whole| && part[k] == whole[places[k]])
    && (forall j, k :: 0 <= j < k < |places| ==> places[j] < places[k])
  }

  ghost predicate Subsequence<T>(part: seq<T>, whole: seq<T>) {
    exists places: seq<nat> :: Embeds(part, whole, places)
  }

  ghost predicate Common<T>(part: seq<T>, left: seq<T>, right: seq<T>) {
    Subsequence(part, left) && Subsequence(part, right)
  }

  ghost predicate IsLongest<T(!new)>(n: nat, left: seq<T>, right: seq<T>) {
    && (exists part :: Common(part, left, right) && |part| == n)
    && (forall part :: Common(part, left, right) ==> |part| <= n)
  }

  function Last<T>(s: seq<T>): T
    requires s != []
  {
    s[|s| - 1]
  }

  function Front<T>(s: seq<T>): seq<T>
    requires s != []
  {
    s[..|s| - 1]
  }

  lemma WithinFront<T>(part: seq<T>, whole: seq<T>, places: seq<nat>)
    requires Embeds(part, whole, places) && whole != []
    requires part == [] || Last(places) < |whole| - 1
    ensures Subsequence(part, Front(whole))
  {
    forall k | 0 <= k < |places| ensures places[k] < |whole| - 1 {
      if k < |places| - 1 { assert places[k] < Last(places); }
    }
    assert Embeds(part, Front(whole), places);
  }

  lemma FrontWithinFront<T>(part: seq<T>, whole: seq<T>)
    requires Subsequence(part, whole) && part != []
    ensures whole != [] && Subsequence(Front(part), Front(whole))
  {
    var places: seq<nat> :| Embeds(part, whole, places);
    assert places[|places| - 1] < |whole|;
    assert Embeds(Front(part), whole, Front(places));
    if Front(part) != [] { assert Last(Front(places)) < Last(places); }
    WithinFront(Front(part), whole, Front(places));
  }

  lemma Widen<T>(part: seq<T>, whole: seq<T>)
    requires whole != [] && Subsequence(part, Front(whole))
    ensures Subsequence(part, whole)
  {
    var places: seq<nat> :| Embeds(part, Front(whole), places);
    assert Embeds(part, whole, places);
  }

  lemma Append<T>(part: seq<T>, whole: seq<T>)
    requires whole != [] && Subsequence(part, Front(whole))
    ensures Subsequence(part + [Last(whole)], whole)
  {
    var places: seq<nat> :| Embeds(part, Front(whole), places);
    assert Embeds(part + [Last(whole)], whole, places + [|whole| - 1]);
  }

  // ---- The recurrence and what it computes ----

  function Lcs<T(==)>(left: seq<T>, right: seq<T>): nat
    decreases |left| + |right|
  {
    if left == [] || right == [] then 0
    else if Last(left) == Last(right) then Lcs(Front(left), Front(right)) + 1
    else if Lcs(Front(left), right) > Lcs(left, Front(right)) then Lcs(Front(left), right)
    else Lcs(left, Front(right))
  }

  lemma {:induction false} LcsIsReached<T>(left: seq<T>, right: seq<T>) returns (part: seq<T>)
    ensures Common(part, left, right) && |part| == Lcs(left, right)
    decreases |left| + |right|
  {
    hide Subsequence;
    if left == [] || right == [] {
      part := [];
      EmptyIsCommon(left, right);
    } else if Last(left) == Last(right) {
      part := LcsIsReached(Front(left), Front(right));
      Append(part, left);
      Append(part, right);
      part := part + [Last(left)];
    } else if Lcs(Front(left), right) > Lcs(left, Front(right)) {
      part := LcsIsReached(Front(left), right);
      Widen(part, left);
    } else {
      part := LcsIsReached(left, Front(right));
      Widen(part, right);
    }
  }

  lemma EmptyIsCommon<T>(left: seq<T>, right: seq<T>)
    ensures Common([], left, right)
  {
    assert Embeds([], left, []) && Embeds([], right, []);
  }

  lemma {:induction false} LcsIsUpperBound<T>(part: seq<T>, left: seq<T>, right: seq<T>)
    requires Common(part, left, right)
    ensures |part| <= Lcs(left, right)
    decreases |left| + |right|
  {
    if part != [] {
      FrontWithinFront(part, left);
      FrontWithinFront(part, right);
      if Last(left) == Last(right) {
        LcsIsUpperBound(Front(part), Front(left), Front(right));
      } else {
        var lefts: seq<nat> :| Embeds(part, left, lefts);
        var rights: seq<nat> :| Embeds(part, right, rights);
        assert Last(part) == left[Last(lefts)] == right[Last(rights)];
        if Last(lefts) < |left| - 1 {
          WithinFront(part, left, lefts);
          LcsIsUpperBound(part, Front(left), right);
        } else {
          WithinFront(part, right, rights);
          LcsIsUpperBound(part, left, Front(right));
        }
      }
    }
  }

  lemma LcsIsLongest<T(!new)>(left: seq<T>, right: seq<T>)
    ensures IsLongest(Lcs(left, right), left, right)
  {
    var reached := LcsIsReached(left, right);
    forall part | Common(part, left, right) ensures |part| <= Lcs(left, right) {
      LcsIsUpperBound(part, left, right);
    }
  }

  /** Two rows suffice: the row above and the one being filled, swapped after each line. */
  method LongestCommonSubsequence<T(==,!new)>(left: seq<T>, right: seq<T>) returns (length: nat)
    ensures length == Lcs(left, right) && IsLongest(length, left, right)
  {
    var n := |right|;
    var previous := new nat[n + 1](_ => 0);
    var current := new nat[n + 1](_ => 0);
    for i := 0 to |left|
      invariant previous != current && previous.Length == current.Length == n + 1
      invariant fresh(previous) && fresh(current)
      invariant forall j :: 0 <= j <= n ==> previous[j] == Lcs(left[..i], right[..j])
      invariant forall j :: 0 <= j <= n ==> current[j] == 0
    {
      for j := 0 to n
        invariant forall k :: 0 <= k <= j ==> current[k] == Lcs(left[..i + 1], right[..k])
        invariant forall k :: 0 <= k <= n ==> previous[k] == Lcs(left[..i], right[..k])
      {
        CellAt(left, right, i, j);
        if left[i] == right[j] {
          current[j + 1] := previous[j] + 1;
        } else if previous[j + 1] > current[j] {
          current[j + 1] := previous[j + 1];
        } else {
          current[j + 1] := current[j];
        }
      }
      previous, current := current, previous;
      Clear(current);
    }
    assert left[..|left|] == left && right[..n] == right;
    LcsIsLongest(left, right);
    return previous[n];
  }

  /** One cell of the table from the three before it. */
  lemma CellAt<T>(left: seq<T>, right: seq<T>, i: nat, j: nat)
    requires i < |left| && j < |right|
    ensures Lcs(left[..i + 1], right[..j + 1]) ==
            if left[i] == right[j] then Lcs(left[..i], right[..j]) + 1
            else if Lcs(left[..i], right[..j + 1]) > Lcs(left[..i + 1], right[..j]) then Lcs(left[..i], right[..j + 1])
            else Lcs(left[..i + 1], right[..j])
  {
    assert Front(left[..i + 1]) == left[..i] && Front(right[..j + 1]) == right[..j];
  }

  method Clear(row: array<nat>)
    modifies row
    ensures forall k :: 0 <= k < row.Length ==> row[k] == 0
  {
    for k := 0 to row.Length
      invariant forall j :: 0 <= j < k ==> row[j] == 0
    {
      row[k] := 0;
    }
  }

  // ---- The consistency score ----

  function Longer<T>(left: seq<T>, right: seq<T>): nat {
    if |right| > |left| then |right| else |left|
  }

  function Similarity<T(==)>(left: seq<T>, right: seq<T>): real {
    if Longer(left, right) > 0 then Lcs(left, right) as real / Longer(left, right) as real else 1.0
  }

  lemma SubsequenceIsShorter<T>(part: seq<T>, whole: seq<T>, places: seq<nat>, k: nat)
    requires Embeds(part, whole, places) && k < |places|
    ensures k <= places[k] <= |whole| - |places| + k
  {
    var low := 0;
    while low < k
      invariant low <= k && low <= places[low]
    {
      assert places[low] < places[low + 1];
      low := low + 1;
    }
    var high := |places| - 1;
    while high > k
      invariant k <= high < |places| && places[high] <= |whole| - |places| + high
    {
      assert places[high - 1] < places[high];
      high := high - 1;
    }
  }

  lemma FullSubsequence<T>(part: seq<T>, whole: seq<T>)
    requires Subsequence(part, whole)
    ensures |part| <= |whole| && (|part| == |whole| ==> part == whole)
  {
    var places: seq<nat> :| Embeds(part, whole, places);
    forall k | 0 <= k < |part| ensures k <= places[k] <= |whole| - |part| + k {
      SubsequenceIsShorter(part, whole, places, k);
    }
    if |part| > 0 { assert 0 <= places[0] <= |whole| - |part|; }
  }

  lemma OwnSubsequence<T>(s: seq<T>)
    ensures Subsequence(s, s)
  {
    var places: seq<nat> := seq(|s|, k => k);
    assert Embeds(s, s, places);
  }

  /** A fraction between 0 and 1, and 1 only for equal sequences. */
  lemma SimilarityRange<T>(left: seq<T>, right: seq<T>)
    ensures 0.0 <= Similarity(left, right) <= 1.0
    ensures Similarity(left, right) == 1.0 <==> left == right
  {
    var part := LcsIsReached(left, right);
    FullSubsequence(part, left);
    FullSubsequence(part, right);
    if left == right {
      OwnSubsequence(left);
      LcsIsUpperBound(left, left, right);
    }
    var common, longer := Lcs(left, right), Longer(left, right);
    if longer > 0 {
      if common == longer { assert |part| == |left| == |right|; }
      Fraction(common as real, longer as real);
    }
  }

  lemma ProductSign(a: real, b: real)
    requires b > 0.0
    ensures (a * b < 0.0 <==> a < 0.0) && (a * b == 0.0 <==> a == 0.0)
  {}

  lemma Fraction(part: real, whole: real)
    requires 0.0 <= part <= whole && whole > 0.0
    ensures 0.0 <= part / whole <= 1.0 && (part / whole == 1.0 <==> part == whole)
  {
    var ratio := part / whole;
    assert ratio * whole == part;
    assert (ratio - 1.0) * whole == part - whole;
    ProductSign(ratio, whole);
    ProductSign(ratio - 1.0, whole);
  }

  /** Similarities of one sequence with those after it, up to `end`. */
  function RowSum<T(==)>(sequences: seq<seq<T>>, left: nat, end: nat): real
    requires left < end <= |sequences|
  {
    if end == left + 1 then 0.0
    else RowSum(sequences, left, end - 1) + Similarity(sequences[left], sequences[end - 1])
  }

  function PairSum<T(==)>(sequences: seq<seq<T>>, rows: nat): real
    requires rows <= |sequences|
  {
    if rows == 0 then 0.0 else PairSum(sequences, rows - 1) + RowSum(sequences, rows - 1, |sequences|)
  }

  function PairCount(n: nat): nat {
    n * (n - 1) / 2
  }

  /** The mean similarity over all pairs; 1 when there is no pair. */
  function Consistency<T(==)>(sequences: seq<seq<T>>): real {
    var n := |sequences|;
    if n < 2 then 1.0 else PairSum(sequences, n) / PairCount(n) as real
  }

  /** The pairs whose first member is among the first `rows` sequences. */
  function PairsIn(n: nat, rows: nat): int {
    rows * (2 * n - rows - 1) / 2
  }

  lemma PairsInStep(n: nat, rows: nat)
    requires 0 < rows <= n
    ensures PairsIn(n, rows) == PairsIn(n, rows - 1) + (n - rows)
  {
    var more := rows * (2 * n - rows - 1);
    var less := (rows - 1) * (2 * n - rows);
    assert more == less + 2 * (n - rows);
  }

  lemma AllPairs(n: nat)
    requires n >= 2
    ensures PairsIn(n, 0) == 0 && PairsIn(n, n) == PairCount(n) && PairCount(n) >= 1
  {
    assert n * (2 * n - n - 1) == n * (n - 1);
    assert n * (n - 1) >= 2 * 1;
  }

  method SequenceConsistency<T(==,!new)>(sequences: seq<seq<T>>) returns (score: real)
    ensures score == Consistency(sequences)
  {
    var n := |sequences|;
    if n < 2 { return 1.0; }
    var total := 0.0;
    var pairs := 0;
    AllPairs(n);
    hide PairsIn, PairCount, Lcs, IsLongest;
    for left := 0 to n
      invariant total == PairSum(sequences, left)
      invariant pairs == PairsIn(n, left)
    {
      PairsInStep(n, left + 1);
      for right := left + 1 to n
        invariant total == PairSum(sequences, left) + RowSum(sequences, left, right)
        invariant pairs == PairsIn(n, left) + (right - left - 1)
      {
        var maxLength := |sequences[left]|;
        if |sequences[right]| > maxLength { maxLength := |sequences[right]|; }
        var similarity := 1.0;
        if maxLength > 0 {
          var common := LongestCommonSubsequence(sequences[left], sequences[right]);
          similarity := common as real / maxLength as real;
        }
        total := total + similarity;
        pairs := pairs + 1;
      }
    }
    return total / pairs as real;
  }

  lemma {:induction false} RowRange<T>(sequences: seq<seq<T>>, left: nat, end: nat)
    requires left < end <= |sequences|
    ensures 0.0 <= RowSum(sequences, left, end) <= (end - left - 1) as real
    ensures RowSum(sequences, left, end) == (end - left - 1) as real <==>
            forall right :: left < right < end ==> sequences[right] == sequences[left]
  {
    if end > left + 1 {
      RowRange(sequences, left, end - 1);
      SimilarityRange(sequences[left], sequences[end - 1]);
    }
  }

  lemma {:induction false} PairRange<T>(sequences: seq<seq<T>>, rows: nat)
    requires rows <= |sequences|
    ensures 0.0 <= PairSum(sequences, rows) <= PairsIn(|sequences|, rows) as real
    ensures PairSum(sequences, rows) == PairsIn(|sequences|, rows) as real <==>
            forall left, right :: 0 <= left < rows && left < right < |sequences| ==> sequences[right] == sequences[left]
  {
    if rows > 0 {
      PairRange(sequences, rows - 1);
      RowRange(sequences, rows - 1, |sequences|);
      PairsInStep(|sequences|, rows);
    }
  }

  /** The score lies between 0 and 1 and is 1 exactly when all sequences are the same. */
  lemma ConsistencyRange<T>(sequences: seq<seq<T>>)
    ensures 0.0 <= Consistency(sequences) <= 1.0
    ensures Consistency(sequences) == 1.0 <==>
            forall left, right :: 0 <= left < right < |sequences| ==> sequences[left] == sequences[right]
  {
    var n := |sequences|;
    if n >= 2 {
      PairRange(sequences, n);
      AllPairs(n);
      Fraction(PairSum(sequences, n), PairCount(n) as real);
    }
  }
}
