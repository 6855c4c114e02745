/**
 * The HitFitResult record: one hypothesis, built from one converged
 * permutation, or the sentinel that stands for "no hypothesis".
 */
module HitFitResults {
  import opened FitOutcomes
  import opened RoleMapping

  /**
   * Status (0 for a fit result, -1 for the sentinel), chi-square, chi-square
   * probability, fitted top mass and its uncertainty, the four partons, the
   * lepton, the neutrino and the jet-index combination.
   */
  datatype HitFitResult = HitFitResult(
    status: int,
    chi2: real,
    prob: real,
    mt: real,
    sigmt: real,
    hadB: Particle,
    hadP: Particle,
    hadQ: Particle,
    lepB: Particle,
    lepL: Particle,
    lepN: Particle,
    jetCombi: seq<int>)

  /** The record's operator<: it compares the chi-square values only. */
  predicate Less(a: HitFitResult, b: HitFitResult)
  {
    a.chi2 < b.chi2
  }

  /**
   * Less is a strict weak ordering, as a list sort needs, and two records are
   * equivalent under it exactly when their chi-square values are equal.
   */
  lemma LessIsStrictWeakOrder(a: HitFitResult, b: HitFitResult, c: HitFitResult)
    ensures !Less(a, a)
    ensures Less(a, b) && Less(b, c) ==> Less(a, c)
    ensures (!Less(a, b) && !Less(b, a)) <==> a.chi2 == b.chi2
  {
  }

  /** The combination written for the sentinel: -1 for each of the four partons. */
  const InvalidCombi: seq<int> := [-1, -1, -1, -1]

  /**
   * The sentinel hypothesis, emitted alone when the inputs are unusable or
   * when no permutation converged: default particles, every index -1, every
   * scalar -1 and status -1.
   */
  const Sentinel := HitFitResult(
    -1, -1.0, -1.0, -1.0, -1.0,
    EmptyParticle, EmptyParticle, EmptyParticle, EmptyParticle, EmptyParticle, EmptyParticle,
    InvalidCombi)

  /**
   * The particle `p` is the fitted jet that carries `tag`: the last such jet
   * when there is one, otherwise jet 0, which the zeroed slot points to.
   */
  predicate IsPartonOfTag(jets: seq<FittedJet>, tag: int, p: Particle)
    requires |jets| > 0
  {
    && (forall k :: 0 <= k < |jets| && IsLastWithTag(jets, tag, k) ==> p.p4 == jets[k].p4)
    && (!HasTag(jets, tag) ==> p.p4 == jets[0].p4)
  }

  /** The jet in the slot of `tag` is the jet tagged `tag`, or jet 0 when none is. */
  lemma SlotHoldsPartonOfTag(jets: seq<FittedJet>, tag: int)
    requires |jets| > 0 && 11 <= tag <= 14
    ensures IsPartonOfTag(jets, tag, Particle(jets[RoleCombi(jets)[SlotOfTag(tag).value]].p4))
  {
    RoleCombiSlot(jets, tag);
  }

  /**
   * The record made from a permutation that converged: status 0, the engine's
   * chi-square, its probability, top mass and uncertainty, the fitted lepton
   * and, as neutrino, the fitted missing transverse energy. Each parton is
   * the fitted jet tagged for its role: 12 the hadronic b, 13 the light quark,
   * 14 the light antiquark and 11 the leptonic b.
   */
  function BuildResult(o: FitOutcome, chi2Prob: real -> real): (r: HitFitResult)
    requires |o.jets| > 0
    ensures r.status == 0 && r.chi2 == o.chisq && r.prob == chi2Prob(o.chisq)
    ensures r.mt == o.mt && r.sigmt == o.sigmt
    ensures r.jetCombi == RoleCombi(o.jets) && |r.jetCombi| == NPartons
    ensures r.hadP.p4 == o.jets[r.jetCombi[LightQ]].p4 && r.hadQ.p4 == o.jets[r.jetCombi[LightQBar]].p4
    ensures r.hadB.p4 == o.jets[r.jetCombi[HadB]].p4 && r.lepB.p4 == o.jets[r.jetCombi[LepB]].p4
    ensures r.lepL.p4 == o.lepton && r.lepN.p4 == o.met
    ensures IsPartonOfTag(o.jets, 12, r.hadB) && IsPartonOfTag(o.jets, 13, r.hadP)
    ensures IsPartonOfTag(o.jets, 14, r.hadQ) && IsPartonOfTag(o.jets, 11, r.lepB)
    ensures r != Sentinel
  {
    SlotHoldsPartonOfTag(o.jets, 11);
    SlotHoldsPartonOfTag(o.jets, 12);
    SlotHoldsPartonOfTag(o.jets, 13);
    SlotHoldsPartonOfTag(o.jets, 14);
    var combi := RoleCombi(o.jets);
    HitFitResult(
      0, o.chisq, chi2Prob(o.chisq), o.mt, o.sigmt,
      Particle(o.jets[combi[HadB]].p4),
      Particle(o.jets[combi[LightQ]].p4),
      Particle(o.jets[combi[LightQBar]].p4),
      Particle(o.jets[combi[LepB]].p4),
      Particle(o.lepton),
      Particle(o.met),
      combi)
  }
}
