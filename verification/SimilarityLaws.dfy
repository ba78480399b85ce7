/** What the consistency score measures. */
module SimilarityLaws {
  import opened Sequences

  /** The similarity is the share of the longer sequence that a longest common subsequence makes up. */
  lemma SimilarityIsShare<T(!new)>(left: seq<T>, right: seq<T>) returns (common: nat)
    ensures IsLongest(common, left, right)
    ensures left == [] && right == [] ==> Similarity(left, right) == 1.0
    ensures |left| >= |right| > 0 || |left| > 0 == |right| ==> Similarity(left, right) * |left| as real == common as real
    ensures |right| > |left| ==> Similarity(left, right) * |right| as real == common as real
  {
    LcsIsLongest(left, right);
    common := Lcs(left, right);
    hide IsLongest, Lcs;
    var longer := Longer(left, right);
    if longer > 0 { ShareTimesWhole(common as real, longer as real); }
  }

  lemma ShareTimesWhole(part: real, whole: real)
    requires whole > 0.0
    ensures (part / whole) * whole == part
  {}

  /** It does not matter which sequence comes first. */
  lemma SimilarityIsSymmetric<T(!new)>(left: seq<T>, right: seq<T>)
    ensures Similarity(left, right) == Similarity(right, left)
  {
    LcsIsLongest(left, right);
    LcsIsLongest(right, left);
    var a := LcsIsReached(left, right);
    var b := LcsIsReached(right, left);
    hide Lcs, Subsequence;
    assert Common(b, left, right) && Common(a, right, left);
  }

  /** One sequence against each of the first n others. */
  function Against<T(==)>(sequences: seq<seq<T>>, x: seq<T>, n: nat): real
    requires n <= |sequences|
  {
    if n == 0 then 0.0 else Against(sequences, x, n - 1) + Similarity(sequences[n - 1], x)
  }

  lemma {:induction false} RowStays<T>(sequences: seq<seq<T>>, x: seq<T>, left: nat, end: nat)
    requires left < end <= |sequences|
    ensures RowSum(sequences + [x], left, end) == RowSum(sequences, left, end)
  {
    hide Similarity;
    if end > left + 1 { RowStays(sequences, x, left, end - 1); }
  }

  lemma {:induction false} PairsWithOneMore<T>(sequences: seq<seq<T>>, x: seq<T>, rows: nat)
    requires rows <= |sequences|
    ensures PairSum(sequences + [x], rows) == PairSum(sequences, rows) + Against(sequences, x, rows)
  {
    hide Similarity;
    if rows > 0 {
      PairsWithOneMore(sequences, x, rows - 1);
      RowStays(sequences, x, rows - 1, |sequences|);
    }
  }

  /** The sum over all pairs grows, with one more sequence, by its similarity to each of the others. */
  lemma OneMoreSequence<T>(sequences: seq<seq<T>>, x: seq<T>)
    ensures PairSum(sequences + [x], |sequences| + 1) ==
            PairSum(sequences, |sequences|) + Against(sequences, x, |sequences|)
    ensures PairSum<T>([], 0) == 0.0
  {
    PairsWithOneMore(sequences, x, |sequences|);
    hide Similarity;
  }

  /** The score is the mean of that sum over the n * (n - 1) / 2 pairs; with no pair it is 1. */
  lemma ConsistencyIsMean<T>(sequences: seq<seq<T>>)
    ensures var n := |sequences|;
            if n < 2 then Consistency(sequences) == 1.0
            else 2.0 * PairSum(sequences, n) == Consistency(sequences) * (n * (n - 1)) as real
  {
    var n := |sequences|;
    hide PairSum;
    if n >= 2 {
      PairsOf(n);
      ShareTimesWhole(PairSum(sequences, n), PairCount(n) as real);
    }
  }

  lemma PairsOf(n: nat)
    requires n >= 2
    ensures PairCount(n) > 0 && 2 * PairCount(n) == n * (n - 1)
  {
    EvenProduct(n);
  }

  lemma {:induction false} EvenProduct(n: nat)
    ensures n * (n - 1) % 2 == 0
    ensures n >= 2 ==> n * (n - 1) >= 2
  {
    if n > 0 {
      EvenProduct(n - 1);
      assert n * (n - 1) == (n - 1) * (n - 2) + 2 * (n - 1);
    }
  }
}
