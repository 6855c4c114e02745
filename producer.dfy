/**
 * The produce step of the semi-leptonic HitFit producer for one event: check
 * the inputs, keep the converged permutations, rank them by chi-square and
 * write at most maxNComb hypotheses (or the sentinel) into twelve parallel
 * output collections.
 */
module Producer {
  import opened FitOutcomes
  import opened RoleMapping
  import opened HitFitResults
  import opened Ranking

  /**
   * The twelve products written to the event, one entry per hypothesis in
   * each: the four partons, the lepton, the neutrino, the jet combination,
   * chi-square, probability, top mass, its uncertainty and the fit status.
   */
  datatype Products = Products(
    partonsHadP: seq<Particle>,
    partonsHadQ: seq<Particle>,
    partonsHadB: seq<Particle>,
    partonsLepB: seq<Particle>,
    leptons: seq<Particle>,
    neutrinos: seq<Particle>,
    combi: seq<seq<int>>,
    chi2: seq<real>,
    prob: seq<real>,
    mt: seq<real>,
    sigmt: seq<real>,
    status: seq<int>)
  {
    /** One push_back of the record `r` into each of the twelve collections. */
    function PushBack(r: HitFitResult): Products
    {
      Products(
        partonsHadP + [r.hadP], partonsHadQ + [r.hadQ], partonsHadB + [r.hadB], partonsLepB + [r.lepB],
        leptons + [r.lepL], neutrinos + [r.lepN], combi + [r.jetCombi],
        chi2 + [r.chi2], prob + [r.prob], mt + [r.mt], sigmt + [r.sigmt], status + [r.status])
    }
  }

  /** The twelve collections as produce() allocates them: all empty. */
  const NoProducts := Products([], [], [], [], [], [], [], [], [], [], [], [])

  /** The products that hold the records `rs`, pushed in order. */
  function Columns(rs: seq<HitFitResult>): Products
    decreases |rs|
  {
    if rs == [] then NoProducts
    else Columns(rs[..|rs| - 1]).PushBack(rs[|rs| - 1])
  }

  /** Record `i` read back across the twelve collections. */
  predicate RowIs(p: Products, i: nat, r: HitFitResult)
    requires i < |p.partonsHadP| && i < |p.partonsHadQ| && i < |p.partonsHadB| && i < |p.partonsLepB|
    requires i < |p.leptons| && i < |p.neutrinos| && i < |p.combi|
    requires i < |p.chi2| && i < |p.prob| && i < |p.mt| && i < |p.sigmt| && i < |p.status|
  {
    && p.partonsHadP[i] == r.hadP && p.partonsHadQ[i] == r.hadQ
    && p.partonsHadB[i] == r.hadB && p.partonsLepB[i] == r.lepB
    && p.leptons[i] == r.lepL && p.neutrinos[i] == r.lepN && p.combi[i] == r.jetCombi
    && p.chi2[i] == r.chi2 && p.prob[i] == r.prob && p.mt[i] == r.mt
    && p.sigmt[i] == r.sigmt && p.status[i] == r.status
  }

  /** All twelve collections have the length `n`. */
  predicate InLockStep(p: Products, n: nat)
  {
    && |p.partonsHadP| == n && |p.partonsHadQ| == n && |p.partonsHadB| == n && |p.partonsLepB| == n
    && |p.leptons| == n && |p.neutrinos| == n && |p.combi| == n
    && |p.chi2| == n && |p.prob| == n && |p.mt| == n && |p.sigmt| == n && |p.status| == n
  }

  /**
   * The collections are filled in lock step: each has one entry per record,
   * and entry i of every collection is the matching field of record i,
   * copied unchanged.
   */
  lemma {:induction false} ColumnsHoldRecords(rs: seq<HitFitResult>)
    ensures InLockStep(Columns(rs), |rs|)
    ensures forall i :: 0 <= i < |rs| ==> RowIs(Columns(rs), i, rs[i])
    decreases |rs|
  {
    if rs != [] {
      var init := rs[..|rs| - 1];
      ColumnsHoldRecords(init);
      forall i | 0 <= i < |rs| ensures RowIs(Columns(rs), i, rs[i]) {
        if i < |init| {
          assert RowIs(Columns(init), i, init[i]);
        }
      }
    }
  }

  /**
   * The skip condition of produce(): a lepton, a missing-energy object and at
   * least as many jets as partons are needed to run the fit.
   */
  predicate InputsUsable<Lepton, Met, Jet>(leps: seq<Lepton>, mets: seq<Met>, jets: seq<Jet>)
  {
    |leps| > 0 && |mets| > 0 && |jets| >= NPartons
  }

  /**
   * The list of results the permutation loop collects: one record per
   * permutation whose chi-square is positive, in permutation order.
   */
  function Converged(outcomes: seq<FitOutcome>, chi2Prob: real -> real): seq<HitFitResult>
    requires AllHaveJets(outcomes)
    decreases |outcomes|
  {
    if outcomes == [] then []
    else
      var init, o := outcomes[..|outcomes| - 1], outcomes[|outcomes| - 1];
      var kept := Converged(init, chi2Prob);
      if o.chisq > 0.0 then kept + [BuildResult(o, chi2Prob)] else kept
  }

  /**
   * The filter keeps permutation order: the records retained from `a + b`
   * are those retained from `a`, followed by those retained from `b`.
   */
  lemma {:induction false} ConvergedAppend(a: seq<FitOutcome>, b: seq<FitOutcome>, chi2Prob: real -> real)
    requires AllHaveJets(a) && AllHaveJets(b)
    ensures AllHaveJets(a + b)
    ensures Converged(a + b, chi2Prob) == Converged(a, chi2Prob) + Converged(b, chi2Prob)
    decreases |b|
  {
    if b == [] {
      assert a + b == a;
    } else {
      var init := b[..|b| - 1];
      assert AllHaveJets(init);
      ConvergedAppend(a, init, chi2Prob);
      assert (a + b)[..|a + b| - 1] == a + init;
      assert (a + b)[|a + b| - 1] == b[|b| - 1];
    }
  }

  /** Every retained record was built from a permutation with positive chi-square. */
  lemma {:induction false} ConvergedAreBuilt(outcomes: seq<FitOutcome>, chi2Prob: real -> real, r: HitFitResult)
    requires AllHaveJets(outcomes) && r in Converged(outcomes, chi2Prob)
    ensures exists i :: 0 <= i < |outcomes| && outcomes[i].chisq > 0.0 && r == BuildResult(outcomes[i], chi2Prob)
    decreases |outcomes|
  {
    var init := outcomes[..|outcomes| - 1];
    assert AllHaveJets(init);
    if r in Converged(init, chi2Prob) {
      ConvergedAreBuilt(init, chi2Prob, r);
      var i :| 0 <= i < |init| && init[i].chisq > 0.0 && r == BuildResult(init[i], chi2Prob);
      assert outcomes[i] == init[i];
    } else {
      var last := |outcomes| - 1;
      assert outcomes[last].chisq > 0.0 && r == BuildResult(outcomes[last], chi2Prob);
    }
  }

  /** Every permutation with positive chi-square has its record retained. */
  lemma {:induction false} ConvergedKeeps(outcomes: seq<FitOutcome>, chi2Prob: real -> real, i: nat)
    requires AllHaveJets(outcomes) && i < |outcomes| && outcomes[i].chisq > 0.0
    ensures BuildResult(outcomes[i], chi2Prob) in Converged(outcomes, chi2Prob)
    decreases |outcomes|
  {
    var init := outcomes[..|outcomes| - 1];
    assert AllHaveJets(init);
    if i < |init| {
      ConvergedKeeps(init, chi2Prob, i);
      assert outcomes[i] == init[i];
    }
  }

  /**
   * A permutation is retained exactly when its chi-square is positive, and
   * every retained record is a fit result with positive chi-square and the
   * matching probability.
   */
  lemma ConvergedIsFilter(outcomes: seq<FitOutcome>, chi2Prob: real -> real)
    requires AllHaveJets(outcomes)
    ensures forall r :: r in Converged(outcomes, chi2Prob) <==>
      exists i :: 0 <= i < |outcomes| && outcomes[i].chisq > 0.0 && r == BuildResult(outcomes[i], chi2Prob)
    ensures forall r :: r in Converged(outcomes, chi2Prob) ==>
      r.status == 0 && r.chi2 > 0.0 && r.prob == chi2Prob(r.chi2) && |r.jetCombi| == NPartons
  {
    forall r | r in Converged(outcomes, chi2Prob)
      ensures exists i :: 0 <= i < |outcomes| && outcomes[i].chisq > 0.0 && r == BuildResult(outcomes[i], chi2Prob)
    {
      ConvergedAreBuilt(outcomes, chi2Prob, r);
    }
    forall i | 0 <= i < |outcomes| && outcomes[i].chisq > 0.0
      ensures BuildResult(outcomes[i], chi2Prob) in Converged(outcomes, chi2Prob)
    {
      ConvergedKeeps(outcomes, chi2Prob, i);
    }
  }

  /** Nothing is retained exactly when no permutation has a positive chi-square. */
  lemma ConvergedEmptyIff(outcomes: seq<FitOutcome>, chi2Prob: real -> real)
    requires AllHaveJets(outcomes)
    ensures Converged(outcomes, chi2Prob) == [] <==> forall i :: 0 <= i < |outcomes| ==> outcomes[i].chisq <= 0.0
  {
    var kept := Converged(outcomes, chi2Prob);
    if kept == [] {
      forall i | 0 <= i < |outcomes| ensures outcomes[i].chisq <= 0.0 {
        if outcomes[i].chisq > 0.0 {
          ConvergedKeeps(outcomes, chi2Prob, i);
        }
      }
    } else {
      ConvergedAreBuilt(outcomes, chi2Prob, kept[0]);
    }
  }

  /** The result list after the sort: the retained records ranked by chi-square. */
  function Ranked(outcomes: seq<FitOutcome>, chi2Prob: real -> real): seq<HitFitResult>
    requires AllHaveJets(outcomes)
  {
    SortByChi2(Converged(outcomes, chi2Prob))
  }

  /**
   * The records produce() emits for one event: the sentinel alone when the
   * inputs are unusable or nothing converged, otherwise the first
   * EmitCount(maxNComb, n) records of the n converged ones ranked by
   * chi-square.
   */
  function Selected<Lepton, Met, Jet>(
    leps: seq<Lepton>, mets: seq<Met>, jets: seq<Jet>, maxNComb: int,
    outcomes: seq<FitOutcome>, chi2Prob: real -> real): seq<HitFitResult>
    requires InputsUsable(leps, mets, jets) ==> AllHaveJets(outcomes)
  {
    if !InputsUsable(leps, mets, jets) then [Sentinel]
    else
      var ranked := Ranked(outcomes, chi2Prob);
      if |ranked| < 1 then [Sentinel]
      else ranked[..EmitCount(maxNComb, |ranked|)]
  }

  /** The emitted list is never empty. */
  lemma SelectedNonEmpty<Lepton, Met, Jet>(
    leps: seq<Lepton>, mets: seq<Met>, jets: seq<Jet>, maxNComb: int,
    outcomes: seq<FitOutcome>, chi2Prob: real -> real)
    requires InputsUsable(leps, mets, jets) ==> AllHaveJets(outcomes)
    ensures |Selected(leps, mets, jets, maxNComb, outcomes, chi2Prob)| >= 1
  {
  }

  /**
   * The sentinel is emitted, alone, exactly when the inputs are unusable or
   * no permutation converged; the same record stands for both cases.
   */
  lemma SelectedIsSentinelIff<Lepton, Met, Jet>(
    leps: seq<Lepton>, mets: seq<Met>, jets: seq<Jet>, maxNComb: int,
    outcomes: seq<FitOutcome>, chi2Prob: real -> real)
    requires InputsUsable(leps, mets, jets) ==> AllHaveJets(outcomes)
    ensures var sel := Selected(leps, mets, jets, maxNComb, outcomes, chi2Prob);
      (sel == [Sentinel]) <==>
      (!InputsUsable(leps, mets, jets) || forall i :: 0 <= i < |outcomes| ==> outcomes[i].chisq <= 0.0)
    ensures var sel := Selected(leps, mets, jets, maxNComb, outcomes, chi2Prob);
      Sentinel in sel ==> sel == [Sentinel]
  {
    if InputsUsable(leps, mets, jets) {
      var ranked := Ranked(outcomes, chi2Prob);
      var sel := Selected(leps, mets, jets, maxNComb, outcomes, chi2Prob);
      RankedHasNoSentinel(outcomes, chi2Prob);
      if |ranked| >= 1 {
        assert sel == ranked[..EmitCount(maxNComb, |ranked|)];
        assert sel[0] in ranked;
      }
    }
  }

  /** The ranked list is empty exactly when nothing converged, and never holds the sentinel. */
  lemma RankedHasNoSentinel(outcomes: seq<FitOutcome>, chi2Prob: real -> real)
    requires AllHaveJets(outcomes)
    ensures Ranked(outcomes, chi2Prob) == [] <==> forall i :: 0 <= i < |outcomes| ==> outcomes[i].chisq <= 0.0
    ensures Sentinel !in Ranked(outcomes, chi2Prob)
  {
    ConvergedEmptyIff(outcomes, chi2Prob);
    RankedIsStableSort(outcomes, chi2Prob);
    var ranked := Ranked(outcomes, chi2Prob);
    assert forall i :: 0 <= i < |ranked| ==> ranked[i].status != Sentinel.status;
  }

  /**
   * The ranked list is a stable ascending sort of the retained records, and
   * each of them is a fit result with positive chi-square.
   */
  lemma RankedIsStableSort(outcomes: seq<FitOutcome>, chi2Prob: real -> real)
    requires AllHaveJets(outcomes)
    ensures var kept := Converged(outcomes, chi2Prob);
      var ranked := Ranked(outcomes, chi2Prob);
      && |ranked| == |kept| && multiset(ranked) == multiset(kept) && SortedByChi2(ranked)
      && (forall c :: WithChi2(ranked, c) == WithChi2(kept, c))
      && (forall i :: 0 <= i < |ranked| ==>
            ranked[i].status == 0 && ranked[i].chi2 > 0.0 && ranked[i].prob == chi2Prob(ranked[i].chi2))
  {
    var kept := Converged(outcomes, chi2Prob);
    SortByChi2IsStableSort(kept);
    SortByChi2Length(kept);
    var ranked := Ranked(outcomes, chi2Prob);
    forall i | 0 <= i < |ranked|
      ensures ranked[i].status == 0 && ranked[i].chi2 > 0.0 && ranked[i].prob == chi2Prob(ranked[i].chi2)
    {
      assert ranked[i] in multiset(kept);
      ConvergedAreBuilt(outcomes, chi2Prob, ranked[i]);
    }
  }

  /**
   * When the fit ran and something converged, the emitted records are the
   * first EmitCount(maxNComb, n) of the n retained records in ranked order,
   * each a fit result with status 0, positive chi-square and its probability.
   */
  lemma SelectedIsRankedPrefix<Lepton, Met, Jet>(
    leps: seq<Lepton>, mets: seq<Met>, jets: seq<Jet>, maxNComb: int,
    outcomes: seq<FitOutcome>, chi2Prob: real -> real)
    requires InputsUsable(leps, mets, jets) && AllHaveJets(outcomes)
    requires exists i :: 0 <= i < |outcomes| && outcomes[i].chisq > 0.0
    ensures var ranked := Ranked(outcomes, chi2Prob);
      var sel := Selected(leps, mets, jets, maxNComb, outcomes, chi2Prob);
      && |sel| == EmitCount(maxNComb, |ranked|) && sel == ranked[..|sel|]
      && (forall i :: 0 <= i < |sel| ==> sel[i].status == 0 && sel[i].chi2 > 0.0 && sel[i].prob == chi2Prob(sel[i].chi2))
  {
    var ranked := Ranked(outcomes, chi2Prob);
    assert |ranked| >= 1 by {
      ConvergedEmptyIff(outcomes, chi2Prob);
      RankedIsStableSort(outcomes, chi2Prob);
    }
    RankedIsStableSort(outcomes, chi2Prob);
    var k := EmitCount(maxNComb, |ranked|);
    var sel := Selected(leps, mets, jets, maxNComb, outcomes, chi2Prob);
    assert sel == ranked[..k];
    forall i | 0 <= i < k
      ensures sel[i].status == 0 && sel[i].chi2 > 0.0 && sel[i].prob == chi2Prob(sel[i].chi2)
    {
      assert sel[i] == ranked[i];
    }
  }

  /**
   * The emitted records are the best fits: ordered by chi-square, and none
   * worse than a retained record that was cut off by the maxNComb limit.
   */
  lemma SelectedKeepsBest<Lepton, Met, Jet>(
    leps: seq<Lepton>, mets: seq<Met>, jets: seq<Jet>, maxNComb: int,
    outcomes: seq<FitOutcome>, chi2Prob: real -> real)
    requires InputsUsable(leps, mets, jets) && AllHaveJets(outcomes)
    requires exists i :: 0 <= i < |outcomes| && outcomes[i].chisq > 0.0
    ensures var ranked := Ranked(outcomes, chi2Prob);
      var sel := Selected(leps, mets, jets, maxNComb, outcomes, chi2Prob);
      && SortedByChi2(sel)
      && (forall i, j :: 0 <= i < |sel| <= j < |ranked| ==> sel[i].chi2 <= ranked[j].chi2)
  {
    var ranked := Ranked(outcomes, chi2Prob);
    SelectedIsRankedPrefix(leps, mets, jets, maxNComb, outcomes, chi2Prob);
    var sel := Selected(leps, mets, jets, maxNComb, outcomes, chi2Prob);
    SortByChi2IsStableSort(Converged(outcomes, chi2Prob));
    PrefixKeepsBest(ranked, |sel|);
  }

  /**
   * At most maxNComb records are emitted when maxNComb is at least 1, and
   * exactly min(maxNComb, n) of n retained ones; with maxNComb at most 0
   * every retained record is emitted.
   */
  lemma SelectedCount<Lepton, Met, Jet>(
    leps: seq<Lepton>, mets: seq<Met>, jets: seq<Jet>, maxNComb: int,
    outcomes: seq<FitOutcome>, chi2Prob: real -> real)
    requires InputsUsable(leps, mets, jets) && AllHaveJets(outcomes)
    ensures var n := |Converged(outcomes, chi2Prob)|;
      var sel := Selected(leps, mets, jets, maxNComb, outcomes, chi2Prob);
      && (n >= 1 && maxNComb >= 1 ==> |sel| == if maxNComb < n then maxNComb else n)
      && (n >= 1 && maxNComb <= 0 ==> |sel| == n)
      && (maxNComb >= 1 ==> |sel| <= maxNComb)
      && |sel| <= if n < 1 then 1 else n
  {
    SortByChi2Length(Converged(outcomes, chi2Prob));
  }

  /**
   * What the twelve products hold for one event: at least one entry, the
   * same number in each, chi-square values in non-decreasing order, and
   * either fit results only (status 0) or the sentinel alone.
   */
  lemma SelectedProducts<Lepton, Met, Jet>(
    leps: seq<Lepton>, mets: seq<Met>, jets: seq<Jet>, maxNComb: int,
    outcomes: seq<FitOutcome>, chi2Prob: real -> real)
    requires InputsUsable(leps, mets, jets) ==> AllHaveJets(outcomes)
    ensures var sel := Selected(leps, mets, jets, maxNComb, outcomes, chi2Prob);
      var out := Columns(sel);
      && |sel| >= 1 && InLockStep(out, |sel|)
      && (forall i, j :: 0 <= i < j < |out.chi2| ==> out.chi2[i] <= out.chi2[j])
      && (forall i :: 0 <= i < |out.status| ==> out.status[i] == 0 || out == Columns([Sentinel]))
  {
    var sel := Selected(leps, mets, jets, maxNComb, outcomes, chi2Prob);
    SelectedNonEmpty(leps, mets, jets, maxNComb, outcomes, chi2Prob);
    ColumnsHoldRecords(sel);
    var out := Columns(sel);
    assert InLockStep(out, |sel|);
    if InputsUsable(leps, mets, jets) && exists i :: 0 <= i < |outcomes| && outcomes[i].chisq > 0.0 {
      SelectedIsRankedPrefix(leps, mets, jets, maxNComb, outcomes, chi2Prob);
      SelectedKeepsBest(leps, mets, jets, maxNComb, outcomes, chi2Prob);
      assert forall i :: 0 <= i < |sel| ==> out.chi2[i] == sel[i].chi2 && out.status[i] == sel[i].status;
    } else {
      SelectedIsSentinelIff(leps, mets, jets, maxNComb, outcomes, chi2Prob);
    }
  }

  /**
   * The permutation loop of produce(): map each fitted permutation's jet
   * tags to a combination and push a record for it when its chi-square is
   * positive.
   */
  method CollectConverged(outcomes: seq<FitOutcome>, chi2Prob: real -> real) returns (list: seq<HitFitResult>)
    requires AllHaveJets(outcomes)
    ensures list == Converged(outcomes, chi2Prob)
    ensures forall r :: r in list ==> r.status == 0 && r.chi2 > 0.0
  {
    list := [];
    var fit := 0;
    while fit != |outcomes|
      invariant 0 <= fit <= |outcomes|
      invariant list == Converged(outcomes[..fit], chi2Prob)
    {
      var fitted := outcomes[fit];
      assert outcomes[..fit + 1][..fit] == outcomes[..fit];
      var hitcombi := MapRoles(fitted.jets);
      var hadP := fitted.jets[hitcombi[LightQ]];
      var hadQ := fitted.jets[hitcombi[LightQBar]];
      var hadB := fitted.jets[hitcombi[HadB]];
      var lepB := fitted.jets[hitcombi[LepB]];
      if fitted.chisq > 0.0 {
        var hitresult := HitFitResult(
          0, fitted.chisq, chi2Prob(fitted.chisq), fitted.mt, fitted.sigmt,
          Particle(hadB.p4), Particle(hadP.p4), Particle(hadQ.p4), Particle(lepB.p4),
          Particle(fitted.lepton), Particle(fitted.met), hitcombi);
        list := list + [hitresult];
      }
      fit := fit + 1;
    }
    assert outcomes[..fit] == outcomes;
    ConvergedIsFilter(outcomes, chi2Prob);
  }

  /**
   * The feed-out loop: walk the ranked list from the front, counting with
   * iComb, stop once maxNComb records were written (when maxNComb is at
   * least 1), and push every field of each record into its collection.
   */
  method EmitRanked(ranked: seq<HitFitResult>, maxNComb: int) returns (out: Products)
    ensures out == Columns(ranked[..EmitCount(maxNComb, |ranked|)])
    ensures maxNComb >= 1 ==> |out.chi2| == if maxNComb < |ranked| then maxNComb else |ranked|
    ensures maxNComb <= 0 ==> |out.chi2| == |ranked|
    ensures InLockStep(out, EmitCount(maxNComb, |ranked|))
    ensures forall i :: 0 <= i < EmitCount(maxNComb, |ranked|) ==> RowIs(out, i, ranked[i])
  {
    out := NoProducts;
    var iComb := 0;
    while iComb < |ranked|
      invariant 0 <= iComb <= EmitCount(maxNComb, |ranked|)
      invariant out == Columns(ranked[..iComb])
    {
      if maxNComb >= 1 && iComb == maxNComb {
        break;
      }
      var result := ranked[iComb];
      assert ranked[..iComb + 1][..iComb] == ranked[..iComb];
      iComb := iComb + 1;
      out := out.PushBack(result);
    }
    ColumnsHoldRecords(ranked[..iComb]);
  }

  /**
   * produce() for one event. The fit engine's answer for the event is
   * `outcomes`; it is not looked at when the inputs are unusable.
   */
  method Produce<Lepton, Met, Jet>(
    leps: seq<Lepton>, mets: seq<Met>, jets: seq<Jet>, maxNComb: int,
    outcomes: seq<FitOutcome>, chi2Prob: real -> real) returns (out: Products)
    requires InputsUsable(leps, mets, jets) ==> AllHaveJets(outcomes)
    ensures out == Columns(Selected(leps, mets, jets, maxNComb, outcomes, chi2Prob))
    ensures !InputsUsable(leps, mets, jets) ==> out == Columns([Sentinel])
    ensures |out.chi2| >= 1 && InLockStep(out, |out.chi2|)
    ensures forall i, j :: 0 <= i < j < |out.chi2| ==> out.chi2[i] <= out.chi2[j]
    ensures forall i :: 0 <= i < |out.status| ==> out.status[i] == 0 || out == Columns([Sentinel])
  {
    if |leps| == 0 || |mets| == 0 || |jets| < NPartons {
      out := NoProducts.PushBack(Sentinel);
    } else {
      var resultList := CollectConverged(outcomes, chi2Prob);
      resultList := SortByChi2(resultList);
      if |resultList| < 1 {
        out := NoProducts.PushBack(Sentinel);
      } else {
        out := EmitRanked(resultList, maxNComb);
      }
    }
    SelectedProducts(leps, mets, jets, maxNComb, outcomes, chi2Prob);
  }
}
