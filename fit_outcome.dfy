/**
 * What the HitFit kinematic-fit engine hands back for one permutation of the
 * event's jets. The engine itself (clear, AddLepton, AddJet, SetMet,
 * FitAllPermutation) is not modelled: its answer for an event is an input
 * sequence of these outcomes, one per permutation, in the engine's order.
 */
module FitOutcomes {

  /** A Lorentz four-vector (x, y, z, t), copied but never computed with. */
  datatype LorentzVector = LorentzVector(x: real, y: real, z: real, t: real)

  /**
   * An output particle: charge 0 at the origin, so only its four-vector
   * varies. A default-constructed particle has the zero four-vector.
   */
  datatype Particle = Particle(p4: LorentzVector)

  /** The particle a default constructor gives (the sentinel outputs use it). */
  const EmptyParticle := Particle(LorentzVector(0.0, 0.0, 0.0, 0.0))

  /** One jet of a fitted event: its fitted four-vector and its role tag. */
  datatype FittedJet = FittedJet(p4: LorentzVector, jetType: int)

  /**
   * The result of fitting one permutation: chi-square (negative when the fit
   * did not converge), fitted top mass and its uncertainty, the fitted jets
   * (the jet at position k carries the role tag the permutation gave jet k),
   * the fitted charged lepton and the fitted missing transverse energy.
   */
  datatype FitOutcome = FitOutcome(
    chisq: real,
    mt: real,
    sigmt: real,
    jets: seq<FittedJet>,
    lepton: LorentzVector,
    met: LorentzVector)

  /**
   * Every permutation the engine fits has at least one jet, so the lookup of
   * a role slot (which defaults to jet 0) stays inside the fitted event.
   */
  predicate AllHaveJets(outcomes: seq<FitOutcome>)
  {
    forall i :: 0 <= i < |outcomes| ==> |outcomes[i].jets| > 0
  }
}
