/**
 * Worked events: three fitted permutations over five jets with chi-square
 * 4.0, 1.5 and 9.0, kept to two hypotheses; the same event with every fit
 * failed; and an event with too few jets.
 */
module Scenarios {
  import opened FitOutcomes
  import opened HitFitResults
  import opened Ranking
  import opened Producer

  const Zero := LorentzVector(0.0, 0.0, 0.0, 0.0)

  /** A fitted permutation with chi-square `chisq` over four tagged jets and a spectator. */
  function Permutation(chisq: real): FitOutcome
  {
    FitOutcome(chisq, 172.5, 1.5,
      [FittedJet(Zero, 11), FittedJet(Zero, 12), FittedJet(Zero, 13), FittedJet(Zero, 14), FittedJet(Zero, 0)],
      Zero, Zero)
  }

  lemma SortThree(a: HitFitResult, b: HitFitResult, c: HitFitResult)
    requires b.chi2 < a.chi2 < c.chi2
    ensures SortByChi2([a, b, c]) == [b, a, c]
  {
    assert [a, b, c][..2] == [a, b] && [a, b][..1] == [a];
    assert SortByChi2([a]) == [a];
    assert SortByChi2([a, b]) == [b, a];
    assert [b, a][1..] == [a] && [a][1..] == [];
    assert Insert(c, [a]) == [a, c];
  }

  lemma ConvergedThree(a: FitOutcome, b: FitOutcome, c: FitOutcome, chi2Prob: real -> real)
    requires |a.jets| > 0 && |b.jets| > 0 && |c.jets| > 0
    requires a.chisq > 0.0 && b.chisq > 0.0 && c.chisq > 0.0
    ensures AllHaveJets([a, b, c])
    ensures Converged([a, b, c], chi2Prob) == [BuildResult(a, chi2Prob), BuildResult(b, chi2Prob), BuildResult(c, chi2Prob)]
  {
    assert [a, b, c][..2] == [a, b] && [a, b][..1] == [a] && [a][..0] == [];
    assert Converged([a], chi2Prob) == [BuildResult(a, chi2Prob)];
    assert Converged([a, b], chi2Prob) == [BuildResult(a, chi2Prob), BuildResult(b, chi2Prob)];
  }

  /** With maxNComb = 2, the two best of 4.0, 1.5, 9.0 are emitted, best first. */
  lemma TwoBestOfThree(chi2Prob: real -> real)
    ensures var outcomes := [Permutation(4.0), Permutation(1.5), Permutation(9.0)];
      var out := Columns(Selected([0], [0], [0, 1, 2, 3, 4], 2, outcomes, chi2Prob));
      out.chi2 == [1.5, 4.0] && out.status == [0, 0]
  {
    var outcomes := [Permutation(4.0), Permutation(1.5), Permutation(9.0)];
    var r1, r2, r3 := BuildResult(outcomes[0], chi2Prob), BuildResult(outcomes[1], chi2Prob), BuildResult(outcomes[2], chi2Prob);
    ConvergedThree(outcomes[0], outcomes[1], outcomes[2], chi2Prob);
    assert outcomes == [outcomes[0], outcomes[1], outcomes[2]];
    SortThree(r1, r2, r3);
    assert Ranked(outcomes, chi2Prob) == [r2, r1, r3];
    var sel := Selected([0], [0], [0, 1, 2, 3, 4], 2, outcomes, chi2Prob);
    assert sel == [r2, r1];
    ColumnsHoldRecords(sel);
  }

  /** When every fit failed, the single sentinel is emitted. */
  lemma AllFitsFailed(chi2Prob: real -> real)
    ensures var outcomes := [Permutation(-4.0), Permutation(-1.5), Permutation(-9.0)];
      var out := Columns(Selected([0], [0], [0, 1, 2, 3, 4], 2, outcomes, chi2Prob));
      out.chi2 == [-1.0] && out.status == [-1] && out.combi == [[-1, -1, -1, -1]]
  {
    var outcomes := [Permutation(-4.0), Permutation(-1.5), Permutation(-9.0)];
    SelectedIsSentinelIff([0], [0], [0, 1, 2, 3, 4], 2, outcomes, chi2Prob);
    ColumnsHoldRecords([Sentinel]);
  }

  /**
   * With three jets the fit is skipped and the same sentinel is emitted,
   * whatever the engine would return and whatever maxNComb is.
   */
  lemma TooFewJets(maxNComb: int, outcomes: seq<FitOutcome>, chi2Prob: real -> real)
    ensures var out := Columns(Selected([0], [0], [0, 1, 2], maxNComb, outcomes, chi2Prob));
      out.chi2 == [-1.0] && out.status == [-1] && out.combi == [[-1, -1, -1, -1]]
  {
    ColumnsHoldRecords([Sentinel]);
  }
}
