/**
 * The consistency check between a weighting potential map and the detector
 * model: it only ever warns, it never raises an error.
 */
module DetectorMatch {
  import opened Wrappers
  import opened Floating
  import opened Geometry

  /** The two warnings the check can log, with the values the message shows. */
  datatype Warning =
    | ThicknessMismatch(fieldThickness: real, depletedThickness: real)
    | PitchMismatch(fieldSizeX: real, fieldSizeY: real, pitch: Vec2)

  /** The thickness test: the map's depth differs from the domain's width by more than epsilon. */
  predicate ThicknessDiffers(size: Vec3, domain: Domain) {
    FAbs(size.z - (domain.upper - domain.lower)) > Epsilon
  }

  /**
   * The pitch test: the map's extent on either axis leaves a remainder above
   * epsilon modulo the pixel pitch (a not-a-number remainder does not).
   */
  predicate PitchDiffers(size: Vec3, pitch: Vec2) {
    Greater(FMod(size.x, pitch.x), Epsilon) || Greater(FMod(size.y, pitch.y), Epsilon)
  }

  /**
   * The warnings the check logs, in order, for a map of the given size
   * checked against the thickness domain and the detector model, if any.
   */
  function DetectorMatchWarnings(size: Vec3, domain: Domain, model: Option<DetectorModel>): (ws: seq<Warning>)
    ensures model.None? ==> ws == []
    ensures ThicknessMismatch(size.z, domain.upper - domain.lower) in ws <==>
              model.Some? && ThicknessDiffers(size, domain)
    ensures model.Some? ==>
              (PitchMismatch(size.x, size.y, model.value.pixelSize) in ws <==> PitchDiffers(size, model.value.pixelSize))
    ensures forall w :: w in ws ==>
              w == ThicknessMismatch(size.z, domain.upper - domain.lower) ||
              (model.Some? && w == PitchMismatch(size.x, size.y, model.value.pixelSize))
    ensures |ws| <= 2
    ensures |ws| == 2 ==> ws[0].ThicknessMismatch? && ws[1].PitchMismatch?
  {
    match model
    case None => []
    case Some(m) =>
      var width := domain.upper - domain.lower;
      (if ThicknessDiffers(size, domain) then [ThicknessMismatch(size.z, width)] else []) +
      (if PitchDiffers(size, m.pixelSize) then [PitchMismatch(size.x, size.y, m.pixelSize)] else [])
  }

  /**
   * A map exactly as thick as the domain and a whole number of pixels wide on
   * both axes draws no warning.
   */
  lemma MatchingFieldHasNoWarnings(size: Vec3, domain: Domain, m: DetectorModel, nx: int, ny: int)
    requires m.pixelSize.x != 0.0 && m.pixelSize.y != 0.0
    requires size.z == domain.upper - domain.lower
    requires size.x == nx as real * m.pixelSize.x && size.y == ny as real * m.pixelSize.y
    ensures DetectorMatchWarnings(size, domain, Some(m)) == []
  {
    assert !PitchDiffers(size, m.pixelSize) by {
      FModOfMultiple(size.x, m.pixelSize.x, nx);
      FModOfMultiple(size.y, m.pixelSize.y, ny);
    }
  }

  /** A thickness difference of at most epsilon, either way, is tolerated. */
  lemma ThicknessWithinEpsilonTolerated(size: Vec3, domain: Domain, model: Option<DetectorModel>)
    requires -Epsilon <= size.z - (domain.upper - domain.lower) <= Epsilon
    ensures forall w :: w in DetectorMatchWarnings(size, domain, model) ==> w.PitchMismatch?
  {
  }
}
