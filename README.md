# Hypothesis selection of the semi-leptonic HitFit producer

A Dafny model of the hypothesis selection and ranking inside `produce()` of
`TtSemiLepHitFitProducer`. This is the CMSSW event producer that runs the
HitFit kinematic fit on a semi-leptonic ttbar event. For one event it:

- skips the fit when there is no lepton, no missing transverse energy (MET)
  or fewer than four jets, and emits a single sentinel hypothesis;
- otherwise takes the fit result of every jet permutation;
- maps each fitted jet's type tag (11 leptonic b, 12 hadronic b, 13 light
  quark, 14 light antiquark) into a four-slot jet combination;
- keeps the permutations whose chi-square is positive;
- sorts them by ascending chi-square with the stable list sort;
- writes at most `maxNComb` of them, or all when `maxNComb` is 0 or less;
- writes the same sentinel when nothing converged;
- writes everything into twelve parallel output collections.

Files, one module each:

- `fit_outcome.dfy` (`FitOutcomes`): what the fit engine returns per
  permutation (chi-square, top mass and uncertainty, tagged fitted jets, fitted
  lepton, fitted MET), and four-vectors and particles as copied values.
- `role_mapping.dfy` (`RoleMapping`): the `hitcombi` switch. `MapRoles` is the
  loop over an `int[4]` buffer that starts as zeros. `RoleCombi` is its
  specification, and lemmas say what each slot holds.
- `hit_fit_result.dfy` (`HitFitResults`): the `HitFitResult` record, its
  `operator<` (`Less`), the sentinel record, and the record built from one
  converged permutation.
- `ranking.dfy` (`Ranking`): `std::list::sort` is modelled by its specification
  as a stable insertion by chi-square (`SortByChi2`). It is proved to be a
  sorted, stable permutation of its input. `EmitCount` is the length of the
  emitted prefix.
- `producer.dfy` (`Producer`): the twelve output collections (`Products`), the
  permutation loop (`CollectConverged`), the feed-out loop (`EmitRanked`),
  `Produce`, and the specification `Selected` of the emitted records, with
  lemmas.
- `scenarios.dfy` (`Scenarios`): three worked events.

The slot positions come from the `TtSemiLepEvtPartons` enumeration, whose
header is not part of this model. They are taken in its order: LightQ = 0,
LightQBar = 1, HadB = 2, LepB = 3. Each jet type tag goes to a different slot.

Three points of the code's behaviour that the model keeps exactly:

- The code value-initialises the combination to zeros. Unassigned slots read
  0, not an undefined value.
- Nothing in the code makes the four indices of a kept hypothesis distinct.
  They are distinct when every tag occurs (`RoleCombiDistinctWhenFullyTagged`).
  When a tag is missing, its slot aliases jet 0 (`UnassignedSlotAliasesJetZero`).
- The filter keeps `chisq() > 0` strictly. A chi-square of exactly 0 is dropped.

## Model

| member | source | states |
|---|---|---|
| `RoleMapping.SlotOfTagIsInjective` | plugins/TtSemiLepHitFitProducer.h:326-335 | exactly the tags 11..14 have a slot; each slot is below 4; two tags with a slot share it only if they are equal |
| `RoleMapping.RoleCombi` | plugins/TtSemiLepHitFitProducer.h:316-336 | the combination has four entries, and each is 0 or the index of a fitted jet |
| `RoleMapping.RoleCombiSlot` | plugins/TtSemiLepHitFitProducer.h:316-336 | the slot of tag t holds the index of the LAST jet tagged t (later jets overwrite); with no such jet it holds 0 |
| `RoleMapping.UnknownTagIgnored` | plugins/TtSemiLepHitFitProducer.h:326-335 | a jet whose tag is not 11..14 leaves the combination unchanged (the switch has no default) |
| `RoleMapping.RoleCombiDistinctWhenFullyTagged` | plugins/TtSemiLepHitFitProducer.h:316-336 | when all four tags occur, each slot names a jet with that slot's tag, and the four indices are pairwise distinct |
| `RoleMapping.UnassignedSlotAliasesJetZero` | plugins/TtSemiLepHitFitProducer.h:316-336 | for every jet list with no jet tagged 14 whose leptonic-b slot is jet 0, the light-antiquark slot stays 0 and so names the same jet as the leptonic-b slot |
| `RoleMapping.AliasingExample` | plugins/TtSemiLepHitFitProducer.h:316-336 | the aliasing happens: jets tagged 11, 12, 13, 0 give the combination [2, 0, 1, 0], whose light-antiquark and leptonic-b slots coincide |
| `RoleMapping.MapRoles` | plugins/TtSemiLepHitFitProducer.h:316-336 | the switch loop over a zeroed int[4] yields RoleCombi: each tagged slot gets the last jet with its tag, and untagged slots stay 0 |
| `HitFitResults.LessIsStrictWeakOrder` | plugins/TtSemiLepHitFitProducer.h:69 | operator< on Chi2 is irreflexive and transitive, and two records are equivalent under it iff their Chi2 values are equal |
| `HitFitResults.SlotHoldsPartonOfTag` | plugins/TtSemiLepHitFitProducer.h:316-355 | the jet read through the slot of tag t is the last fitted jet tagged t, or jet 0 when no jet carries t |
| `HitFitResults.BuildResult` | plugins/TtSemiLepHitFitProducer.h:352-386 | each parton of a kept record is the fitted jet tagged for its role (HadB tag 12, HadP tag 13, HadQ tag 14, LepB tag 11; the last such jet, or jet 0 when the tag is missing); Status 0, Chi2 = chisq, Prob = chi2Prob(chisq), the engine's mt and sigmt, the fitted lepton, the MET as neutrino; never the sentinel |
| `Ranking.SortByChi2IsStableSort` | plugins/TtSemiLepHitFitProducer.h:392 | the sorted list is in non-decreasing Chi2 order and holds the same multiset; records with equal Chi2 keep their input order (stable list sort with operator<) |
| `Ranking.SortByChi2Length` | plugins/TtSemiLepHitFitProducer.h:392 | sorting keeps the number of records |
| `Ranking.PrefixKeepsBest` | plugins/TtSemiLepHitFitProducer.h:422-425 | a prefix of a sorted list is sorted, and none of its records has a larger Chi2 than a record after the prefix |
| `Producer.ColumnsHoldRecords` | plugins/TtSemiLepHitFitProducer.h:427-445 | pushing records in lock step gives twelve collections of equal length; entry i of each is the matching field of record i, unchanged |
| `Producer.ConvergedAppend` | plugins/TtSemiLepHitFitProducer.h:311-387 | the results are pushed in permutation order: the list kept from a + b is the list kept from a followed by the list kept from b |
| `Producer.ConvergedAreBuilt` | plugins/TtSemiLepHitFitProducer.h:359-387 | every kept record was built from a permutation whose chisq is positive |
| `Producer.ConvergedKeeps` | plugins/TtSemiLepHitFitProducer.h:359-387 | the record of every permutation with positive chisq is kept |
| `Producer.ConvergedIsFilter` | plugins/TtSemiLepHitFitProducer.h:343-387 | a record is kept iff it is the record of a permutation with chisq > 0; every kept record has Status 0, Chi2 > 0, Prob = chi2Prob(Chi2) and a four-slot combination |
| `Producer.ConvergedEmptyIff` | plugins/TtSemiLepHitFitProducer.h:359-399 | the result list is empty iff no permutation has a positive chisq |
| `Producer.RankedIsStableSort` | plugins/TtSemiLepHitFitProducer.h:392 | the sorted result list has the kept records, is ordered by Chi2 and stable, and every entry has Status 0, Chi2 > 0 and its probability |
| `Producer.RankedHasNoSentinel` | plugins/TtSemiLepHitFitProducer.h:359-399 | the sorted result list is empty iff no permutation has a positive chisq, and it never holds the sentinel record |
| `Producer.SelectedNonEmpty` | plugins/TtSemiLepHitFitProducer.h:190-226 | at least one hypothesis is emitted for every event |
| `Producer.SelectedIsSentinelIff` | plugins/TtSemiLepHitFitProducer.h:399-420 | exactly the sentinel is emitted iff the inputs are unusable (no lepton, no MET or fewer than 4 jets) or no permutation has chisq > 0; the sentinel never appears beside a fit result; both fallbacks emit the same record |
| `Producer.SelectedIsRankedPrefix` | plugins/TtSemiLepHitFitProducer.h:422-445 | when something converged, the emitted records are the first EmitCount(maxNComb, n) sorted records, each with Status 0, Chi2 > 0 and its probability |
| `Producer.SelectedKeepsBest` | plugins/TtSemiLepHitFitProducer.h:422-425 | the emitted records are in non-decreasing Chi2 order, and none has a larger Chi2 than a kept record cut off by maxNComb |
| `Producer.SelectedCount` | plugins/TtSemiLepHitFitProducer.h:422-425 | with n >= 1 kept records: min(maxNComb, n) are emitted when maxNComb >= 1, and all n when maxNComb <= 0; never more than maxNComb when it is >= 1; never more than max(1, n) |
| `Producer.SelectedProducts` | plugins/TtSemiLepHitFitProducer.h:427-445 | the twelve outputs have one equal length of at least 1, Chi2 in non-decreasing order, and hold either fit results only (Status 0) or the sentinel alone |
| `Producer.CollectConverged` | plugins/TtSemiLepHitFitProducer.h:311-389 | the permutation loop pushes, in permutation order, exactly the records of permutations with chisq > 0, each with Status 0 and Chi2 > 0 |
| `Producer.EmitRanked` | plugins/TtSemiLepHitFitProducer.h:422-446 | the feed-out loop with iComb and break writes exactly the first EmitCount(maxNComb, n) records, field by field, into twelve collections of that length |
| `Producer.Produce` | plugins/TtSemiLepHitFitProducer.h:183-447 | produce() writes the columns of Selected. Unusable inputs give the sentinel whatever the engine returned. The output is never empty, has equal lengths and ascending Chi2, and holds either fit results or the sentinel alone |
| `Scenarios.TwoBestOfThree` | plugins/TtSemiLepHitFitProducer.h:392-445 | chi-squares 4.0, 1.5 and 9.0 with maxNComb = 2 emit Chi2 [1.5, 4.0] with Status [0, 0] |
| `Scenarios.AllFitsFailed` | plugins/TtSemiLepHitFitProducer.h:399-420 | three non-converged permutations emit the single sentinel (Chi2 -1, Status -1, combination [-1,-1,-1,-1]) |
| `Scenarios.TooFewJets` | plugins/TtSemiLepHitFitProducer.h:190-211 | an event with three jets emits the sentinel (Chi2 -1, Status -1, combination [-1,-1,-1,-1]) for every engine answer and every maxNComb |

## Left out

- Framework plumbing is not modelled: `getByLabel`, `put`, `produces`, the
  parameter and file-path reading, the constructor and destructor. It is
  event-store I/O and configuration.
- The HitFit engine is not modelled: `RunHitFit`, `clear`, `AddLepton`,
  `AddJet`, `SetMet`, `FitAllPermutation`, `GetFitAllPermutation` and the
  translators. Their code is not part of this model. Its answer for an event
  is the input `outcomes`. Its `clear()` reset between events has no
  counterpart, because every call starts from its own inputs.
- The jet-adding loop `for (jet = 0; jet != maxNJets_; ++jet)` is not
  modelled. The engine's input jets are not represented. (As written, that
  loop ignores the "-1 means all" convention and can index past the end of
  the jet collection.)
- Only the size of the lepton, MET and jet collections is used. Their
  contents only feed the engine.
- The source loops over `njets()` of the unfitted event. The model loops over
  the jets of each fitted event and takes the two counts to be equal.
- `AllHaveJets`: every fitted permutation is assumed to have at least one jet.
  This is needed because the role slots default to jet 0 and are looked up in
  the fitted event. The assumption holds only when the fit runs.
- `exp(-chi2/2)` is floating-point code. It is the parameter `chi2Prob`.
  Chi-square, masses and four-vector components are reals: NaN, rounding and
  floating-point comparison are not modelled.
- Four-vectors are constructed through `LeafCandidate` / `XYZTLorentzVector`.
  Particles are modelled as copied four-vectors with charge 0 at the origin. A
  default `pat::Particle` is the zero four-vector.
- `std::list` is a linked list sorted in place. It is a sequence here, and
  its sort is modelled by the result it specifies (a stable sort), not by its
  merge algorithm.
- Dead state is not modelled: the `channel` flag, `jetPermutation`,
  `fitWeight`, `fittedTopMass`, `fittedTopMassSigma`, `fitChi2` and
  `fitConverge`. None of them is output.
- Idempotence across runs is not a separate lemma. Every member is a
  deterministic function of its inputs.
