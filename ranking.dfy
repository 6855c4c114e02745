/**
 * The ranker: the list of converged records is sorted by ascending
 * chi-square with the list's own sort, which is stable and uses the
 * record's operator<, and the feed-out keeps a prefix of it.
 */
module Ranking {
  import opened HitFitResults

  /** Non-decreasing chi-square along the list. */
  predicate SortedByChi2(s: seq<HitFitResult>)
  {
    forall i, j :: 0 <= i < j < |s| ==> s[i].chi2 <= s[j].chi2
  }

  /** The records of `s` whose chi-square is `c`, in their order in `s`. */
  function WithChi2(s: seq<HitFitResult>, c: real): seq<HitFitResult>
  {
    if s == [] then []
    else (if s[0].chi2 == c then [s[0]] else []) + WithChi2(s[1..], c)
  }

  /**
   * Places `x` into the sorted list `s` in front of the first record it is
   * Less than, that is behind every record with chi-square at most its own.
   */
  function Insert(x: HitFitResult, s: seq<HitFitResult>): seq<HitFitResult>
  {
    if s == [] then [x]
    else if Less(x, s[0]) then [x] + s
    else [s[0]] + Insert(x, s[1..])
  }

  /**
   * The list sort: records are inserted in list order, each one behind the
   * records already placed that it is not Less than.
   */
  function SortByChi2(s: seq<HitFitResult>): seq<HitFitResult>
    decreases |s|
  {
    if s == [] then []
    else Insert(s[|s| - 1], SortByChi2(s[..|s| - 1]))
  }

  lemma {:induction false} WithChi2Append(a: seq<HitFitResult>, b: seq<HitFitResult>, c: real)
    ensures WithChi2(a + b, c) == WithChi2(a, c) + WithChi2(b, c)
    decreases |a|
  {
    if a != [] {
      assert (a + b)[1..] == a[1..] + b;
      WithChi2Append(a[1..], b, c);
    } else {
      assert a + b == b;
    }
  }

  lemma {:induction false} WithChi2Below(s: seq<HitFitResult>, c: real)
    requires forall i :: 0 <= i < |s| ==> c < s[i].chi2
    ensures WithChi2(s, c) == []
    decreases |s|
  {
    if s != [] {
      WithChi2Below(s[1..], c);
    }
  }

  lemma {:induction false} InsertCounts(x: HitFitResult, s: seq<HitFitResult>)
    ensures multiset(Insert(x, s)) == multiset(s) + multiset{x}
    decreases |s|
  {
    if s != [] && !Less(x, s[0]) {
      InsertCounts(x, s[1..]);
      assert s == [s[0]] + s[1..];
    }
  }

  lemma {:induction false} InsertSorted(x: HitFitResult, s: seq<HitFitResult>)
    requires SortedByChi2(s)
    ensures SortedByChi2(Insert(x, s))
    decreases |s|
  {
    if s != [] && !Less(x, s[0]) {
      var rest := Insert(x, s[1..]);
      InsertSorted(x, s[1..]);
      InsertCounts(x, s[1..]);
      forall i | 0 <= i < |rest| ensures s[0].chi2 <= rest[i].chi2 {
        assert rest[i] in multiset(rest);
        assert rest[i] == x || rest[i] in s[1..];
      }
    }
  }

  lemma {:induction false} InsertKeepsOrderOfEquals(x: HitFitResult, s: seq<HitFitResult>, c: real)
    requires SortedByChi2(s)
    ensures WithChi2(Insert(x, s), c) == WithChi2(s, c) + WithChi2([x], c)
    decreases |s|
  {
    if s == [] {
      assert WithChi2([x], c) == WithChi2([x], c) + [];
    } else if Less(x, s[0]) {
      WithChi2Append([x], s, c);
      if x.chi2 == c {
        WithChi2Below(s, c);
      }
    } else {
      InsertKeepsOrderOfEquals(x, s[1..], c);
      WithChi2Append([s[0]], Insert(x, s[1..]), c);
      WithChi2Append([s[0]], s[1..], c);
      assert s == [s[0]] + s[1..];
    }
  }

  /** Inserting keeps the list sorted, adds exactly `x`, and puts `x` behind its equals. */
  lemma InsertIsStable(x: HitFitResult, s: seq<HitFitResult>)
    requires SortedByChi2(s)
    ensures SortedByChi2(Insert(x, s))
    ensures multiset(Insert(x, s)) == multiset(s) + multiset{x}
    ensures forall c :: WithChi2(Insert(x, s), c) == WithChi2(s, c) + WithChi2([x], c)
  {
    InsertSorted(x, s);
    InsertCounts(x, s);
    forall c ensures WithChi2(Insert(x, s), c) == WithChi2(s, c) + WithChi2([x], c) {
      InsertKeepsOrderOfEquals(x, s, c);
    }
  }

  /**
   * The sort is a stable ascending sort: the result is ordered by chi-square,
   * holds the same records, and records of equal chi-square keep the order
   * they had in the input. Equal chi-square is the right notion of "equal"
   * for stability because it is exactly equivalence under Less
   * (LessIsStrictWeakOrder).
   */
  lemma {:induction false} SortByChi2IsStableSort(s: seq<HitFitResult>)
    ensures SortedByChi2(SortByChi2(s))
    ensures multiset(SortByChi2(s)) == multiset(s)
    ensures forall c :: WithChi2(SortByChi2(s), c) == WithChi2(s, c)
    decreases |s|
  {
    if s != [] {
      var init, x := s[..|s| - 1], s[|s| - 1];
      SortByChi2IsStableSort(init);
      InsertIsStable(x, SortByChi2(init));
      assert s == init + [x];
      forall c ensures WithChi2(SortByChi2(s), c) == WithChi2(s, c) {
        WithChi2Append(init, [x], c);
      }
    }
  }

  lemma SortByChi2Length(s: seq<HitFitResult>)
    ensures |SortByChi2(s)| == |s|
  {
    SortByChi2IsStableSort(s);
    assert |multiset(SortByChi2(s))| == |multiset(s)|;
  }

  /**
   * How many records the feed-out loop emits from a list of n: it stops after
   * maxNComb records when maxNComb is at least 1, otherwise at the end.
   */
  function EmitCount(maxNComb: int, n: nat): nat
  {
    if maxNComb >= 1 && maxNComb < n then maxNComb else n
  }

  /**
   * Keeping a prefix of a sorted list keeps the best fits: no emitted record
   * has a larger chi-square than a record that was cut off.
   */
  lemma PrefixKeepsBest(s: seq<HitFitResult>, k: nat)
    requires SortedByChi2(s) && k <= |s|
    ensures SortedByChi2(s[..k])
    ensures forall i, j :: 0 <= i < k <= j < |s| ==> s[..k][i].chi2 <= s[j].chi2
  {
  }
}
