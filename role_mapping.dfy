/**
 * The role mapper: for one fitted permutation, the jet-type tag of every
 * fitted jet is turned into a four-slot jet-index combination, indexed by the
 * parton positions of the semi-leptonic ttbar event.
 */
module RoleMapping {
  import opened FitOutcomes

  /** Number of partons (jets) a hypothesis assigns. */
  const NPartons := 4

  // Slot positions, in the order of the TtSemiLepEvtPartons enumeration.
  const LightQ := 0
  const LightQBar := 1
  const HadB := 2
  const LepB := 3

  datatype Option<T> = None | Some(value: T)

  /**
   * The slot a jet-type tag writes to: 11 the leptonic b, 12 the hadronic b,
   * 13 the light quark and 14 the light antiquark of the hadronic W. Any other
   * tag writes nowhere.
   */
  function SlotOfTag(tag: int): Option<nat>
  {
    match tag
    case 11 => Some(LepB)
    case 12 => Some(HadB)
    case 13 => Some(LightQ)
    case 14 => Some(LightQBar)
    case _ => None
  }

  lemma SlotOfTagIsInjective(tag1: int, tag2: int)
    ensures SlotOfTag(tag1).Some? <==> 11 <= tag1 <= 14
    ensures SlotOfTag(tag1).Some? ==> SlotOfTag(tag1).value < NPartons
    ensures SlotOfTag(tag1).Some? && SlotOfTag(tag1) == SlotOfTag(tag2) ==> tag1 == tag2
  {
  }

  /** One case of the switch: jet `jet` with tag `tag` overwrites its slot. */
  function Assign(combi: seq<int>, jet: int, tag: int): seq<int>
    requires |combi| == NPartons
  {
    match SlotOfTag(tag)
    case Some(k) => combi[k := jet]
    case None => combi
  }

  /**
   * The combination after the switch has run over all of `jets`, starting
   * from four zeros. Every slot holds a jet index or the initial 0.
   */
  function RoleCombi(jets: seq<FittedJet>): (combi: seq<int>)
    ensures |combi| == NPartons
    ensures forall k :: 0 <= k < NPartons ==> combi[k] == 0 || 0 <= combi[k] < |jets|
    decreases |jets|
  {
    if |jets| == 0 then [0, 0, 0, 0]
    else
      var last := |jets| - 1;
      Assign(RoleCombi(jets[..last]), last, jets[last].jetType)
  }

  /** Some jet carries `tag`. */
  predicate HasTag(jets: seq<FittedJet>, tag: int)
  {
    exists i :: 0 <= i < |jets| && jets[i].jetType == tag
  }

  /** Jet `i` is the last jet that carries `tag`. */
  predicate IsLastWithTag(jets: seq<FittedJet>, tag: int, i: int)
  {
    && 0 <= i < |jets|
    && jets[i].jetType == tag
    && forall j :: i < j < |jets| ==> jets[j].jetType != tag
  }

  /**
   * What a slot holds after the mapping: the index of the LAST jet whose tag
   * maps to it (later jets overwrite earlier ones), or 0 when no jet carries
   * that tag (the vector is value-initialised).
   */
  lemma {:induction false} RoleCombiSlot(jets: seq<FittedJet>, tag: int)
    requires 11 <= tag <= 14
    ensures HasTag(jets, tag) ==> IsLastWithTag(jets, tag, RoleCombi(jets)[SlotOfTag(tag).value])
    ensures !HasTag(jets, tag) ==> RoleCombi(jets)[SlotOfTag(tag).value] == 0
    decreases |jets|
  {
    if |jets| > 0 {
      var last := |jets| - 1;
      var prefix := jets[..last];
      RoleCombiSlot(prefix, tag);
      var k := SlotOfTag(tag).value;
      if jets[last].jetType == tag {
        assert IsLastWithTag(jets, tag, last);
      } else {
        SlotOfTagIsInjective(jets[last].jetType, tag);
        assert RoleCombi(jets)[k] == RoleCombi(prefix)[k];
        if HasTag(jets, tag) {
          var i :| 0 <= i < |jets| && jets[i].jetType == tag;
          assert prefix[i].jetType == tag;
        } else {
          forall i | 0 <= i < |prefix| ensures prefix[i].jetType != tag {
            assert prefix[i] == jets[i];
          }
        }
      }
    }
  }

  /** A jet whose tag is not one of 11..14 leaves the combination unchanged. */
  lemma UnknownTagIgnored(jets: seq<FittedJet>, extra: FittedJet)
    requires !(11 <= extra.jetType <= 14)
    ensures RoleCombi(jets + [extra]) == RoleCombi(jets)
  {
    assert (jets + [extra])[..|jets|] == jets;
  }

  /**
   * When each of the four tags occurs, the four slots hold four distinct jet
   * indices, each naming a jet that carries that slot's tag.
   */
  lemma RoleCombiDistinctWhenFullyTagged(jets: seq<FittedJet>)
    requires HasTag(jets, 11) && HasTag(jets, 12) && HasTag(jets, 13) && HasTag(jets, 14)
    ensures var c := RoleCombi(jets);
      && jets[c[LepB]].jetType == 11 && jets[c[HadB]].jetType == 12
      && jets[c[LightQ]].jetType == 13 && jets[c[LightQBar]].jetType == 14
    ensures forall k, l :: 0 <= k < l < NPartons ==> RoleCombi(jets)[k] != RoleCombi(jets)[l]
  {
    RoleCombiSlot(jets, 11);
    RoleCombiSlot(jets, 12);
    RoleCombiSlot(jets, 13);
    RoleCombiSlot(jets, 14);
  }

  /**
   * The mapping does not check that all roles were assigned: with no jet
   * tagged 14, the light-antiquark slot keeps 0 and coincides with the
   * leptonic b whenever that is jet 0.
   */
  lemma UnassignedSlotAliasesJetZero(jets: seq<FittedJet>)
    requires !HasTag(jets, 14) && RoleCombi(jets)[LepB] == 0
    ensures RoleCombi(jets)[LightQBar] == 0
    ensures RoleCombi(jets)[LightQBar] == RoleCombi(jets)[LepB]
  {
    RoleCombiSlot(jets, 14);
  }

  /** A jet list where the aliasing happens: tags 11, 12, 13 and an untagged jet. */
  lemma AliasingExample(p: LorentzVector)
    ensures var jets := [FittedJet(p, 11), FittedJet(p, 12), FittedJet(p, 13), FittedJet(p, 0)];
      RoleCombi(jets) == [2, 0, 1, 0] && RoleCombi(jets)[LightQBar] == RoleCombi(jets)[LepB]
  {
    var jets := [FittedJet(p, 11), FittedJet(p, 12), FittedJet(p, 13), FittedJet(p, 0)];
    assert RoleCombi(jets[..1]) == [0, 0, 0, 0];
    assert RoleCombi(jets[..2]) == [0, 0, 1, 0];
    assert RoleCombi(jets[..3]) == [2, 0, 1, 0];
  }

  /**
   * The switch loop: `hitcombi` starts as four zeros, then every fitted jet
   * writes its index into the slot its tag names.
   */
  method MapRoles(jets: seq<FittedJet>) returns (combi: seq<int>)
    ensures combi == RoleCombi(jets)
    ensures forall tag :: 11 <= tag <= 14 && HasTag(jets, tag) ==>
      IsLastWithTag(jets, tag, combi[SlotOfTag(tag).value])
    ensures forall tag :: 11 <= tag <= 14 && !HasTag(jets, tag) ==> combi[SlotOfTag(tag).value] == 0
  {
    var hitcombi := new int[NPartons](_ => 0);
    var jet := 0;
    while jet != |jets|
      invariant 0 <= jet <= |jets|
      invariant hitcombi[..] == RoleCombi(jets[..jet])
    {
      assert jets[..jet + 1][..jet] == jets[..jet];
      match jets[jet].jetType {
        case 11 => hitcombi[LepB] := jet;
        case 12 => hitcombi[HadB] := jet;
        case 13 => hitcombi[LightQ] := jet;
        case 14 => hitcombi[LightQBar] := jet;
        case _ =>
      }
      jet := jet + 1;
    }
    assert jets[..jet] == jets;
    combi := hitcombi[..];
    forall tag | 11 <= tag <= 14
      ensures HasTag(jets, tag) ==> IsLastWithTag(jets, tag, combi[SlotOfTag(tag).value])
      ensures !HasTag(jets, tag) ==> combi[SlotOfTag(tag).value] == 0
    {
      RoleCombiSlot(jets, tag);
    }
  }
}
