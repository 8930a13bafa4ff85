/**
 * The sample points of the two diagnostic plots: a depth profile of the
 * weighting potential at one (x, y), and a map over x and depth across three
 * pixels. Only the positions asked for, and the pixel they are relative to,
 * are modelled; the histograms themselves are not.
 */
module OutputPlots {
  import opened Geometry

  /** The default of `output_plots_steps`. */
  const DefaultSteps: nat := 500

  /** The default of `output_plots_position`. */
  const DefaultPosition: Vec2 := Vec2(0.0, 0.0)

  /** Pixel::Index */
  datatype PixelIndex = PixelIndex(x: nat, y: nat)

  /** One weighting potential lookup of a plot: at pos, for the pixel given. */
  datatype Sample = Sample(pos: Vec3, pixel: PixelIndex)

  /** The depth range of both plots: the sensor's extent around its centre. */
  function PlotRange(m: DetectorModel): (r: Domain)
    ensures r.upper - r.lower == m.sensorSize.z
    ensures (r.lower + r.upper) / 2.0 == m.sensorCenter.z
  {
    Domain(m.sensorCenter.z - m.sensorSize.z / 2.0, m.sensorCenter.z + m.sensorSize.z / 2.0)
  }

  /** The plotted range is the thickness domain the potential is defined over. */
  lemma PlotRangeIsThicknessDomain(m: DetectorModel)
    ensures PlotRange(m) == ThicknessDomain(m)
  {
    ThicknessDomainCentred(m);
  }

  /** The fraction of the range at which the centre of bin j of `steps` sits. */
  function BinFraction(j: nat, steps: nat): real
    requires j < steps
  {
    (j as real + 0.5) / steps as real
  }

  /** A quotient of a positive number by a larger one is a proper fraction. */
  lemma QuotientBelow(a: real, n: real)
    requires 0.0 < a < n
    ensures 0.0 < a / n < 1.0
  {
    var q := a / n;
    assert q * n == a;
    if q >= 1.0 {
      assert false;
    }
    if q <= 0.0 {
      assert false;
    }
  }

  /** A bin centre lies strictly between the two ends of the range. */
  lemma BinFractionBounds(j: nat, steps: nat)
    requires j < steps
    ensures 0.0 < BinFraction(j, steps) < 1.0
  {
    var a := j as real + 0.5;
    var n := steps as real;
    QuotientBelow(a, n);
  }

  /**
   * The part t of a width w. Bin centres are written with this product named,
   * so that the solver treats it as one term: its bounds, proved once in
   * ProperPart, then carry over to every range without nonlinear reasoning.
   */
  function Part(t: real, w: real): real {
    t * w
  }

  lemma ProductBelow(t: real, w: real)
    requires 0.0 < w && 0.0 < t < 1.0
    ensures 0.0 < t * w < w
  {
    assert (1.0 - t) * w > 0.0;
  }

  /*
   * The two bounds on Part are carried over from ProductBelow one at a time:
   * with both in one context the solver's nonlinear arithmetic does not
   * connect `Part(t, w)` to `t * w`, so ProperPart combines two lemmas.
   */
  lemma PartPositive(t: real, w: real)
    requires 0.0 < w && 0.0 < t < 1.0
    ensures 0.0 < Part(t, w)
  {
    ProductBelow(t, w);
  }

  lemma PartBelow(t: real, w: real)
    requires 0.0 < w && 0.0 < t < 1.0
    ensures Part(t, w) < w
  {
    ProductBelow(t, w);
  }

  /** A proper part of a positive width is positive and less than the width. */
  lemma ProperPart(t: real, w: real)
    requires 0.0 < w && 0.0 < t < 1.0
    ensures 0.0 < Part(t, w) < w
  {
    PartPositive(t, w);
    PartBelow(t, w);
  }

  /** The centre of bin j of `steps` equal bins over the range, strictly inside a non-empty range. */
  function BinCentre(range: Domain, j: nat, steps: nat): (c: real)
    requires j < steps
    ensures range.lower < range.upper ==> range.lower < c < range.upper
  {
    BinFractionBounds(j, steps);
    if range.lower < range.upper then
      ProperPart(BinFraction(j, steps), Width(range));
      range.lower + Part(BinFraction(j, steps), Width(range))
    else
      range.lower + Part(BinFraction(j, steps), Width(range))
  }

  /** Bin centre j lies strictly inside bin j. */
  lemma BinCentreInBin(range: Domain, j: nat, steps: nat)
    requires j < steps && range.lower < range.upper
    ensures var w := Width(range) / steps as real;
      range.lower + j as real * w < BinCentre(range, j, steps) < range.lower + (j + 1) as real * w
  {
    var n := steps as real;
    var w := Width(range) / n;
    assert w > 0.0;
    assert Part(BinFraction(j, steps), Width(range)) == (j as real + 0.5) * w;
  }

  /** Consecutive bin centres are one bin width apart. */
  lemma BinCentreSpacing(range: Domain, j: nat, steps: nat)
    requires j + 1 < steps
    ensures BinCentre(range, j + 1, steps) - BinCentre(range, j, steps) == Width(range) / steps as real
  {
    assert BinFraction(j + 1, steps) == BinFraction(j, steps) + 1.0 / steps as real;
  }

  /** Bin centres increase strictly with the bin index. */
  lemma {:induction false} BinCentresIncrease(range: Domain, j: nat, k: nat, steps: nat)
    requires range.lower < range.upper && j < k < steps
    ensures BinCentre(range, j, steps) < BinCentre(range, k, steps)
    decreases k - j
  {
    BinCentreSpacing(range, k - 1, steps);
    assert Width(range) / steps as real > 0.0;
    if j < k - 1 {
      BinCentresIncrease(range, j, k - 1, steps);
    }
  }

  /**
   * The x of column k of the map, as the source computes it: from -1.5 pitch,
   * k + 0.5 of `steps` parts of 3 pitch. That is the centre of bin k over
   * [-1.5 pitch, 1.5 pitch], so for a positive pitch it lies strictly within
   * one and a half pitches of the axis.
   */
  function MapX(pitch: real, k: nat, steps: nat): (x: real)
    requires k < steps
    ensures x == BinCentre(MapXRange(pitch), k, steps)
    ensures pitch > 0.0 ==> -1.5 * pitch < x < 1.5 * pitch
  {
    assert Width(MapXRange(pitch)) == 3.0 * pitch;
    -1.5 * pitch + ((k as real + 0.5) / steps as real) * 3.0 * pitch
  }

  /** The range the map scans horizontally: three pitches centred on x = 0. */
  function MapXRange(pitch: real): (r: Domain)
    ensures Width(r) == 3.0 * pitch
  {
    Domain(-1.5 * pitch, 1.5 * pitch)
  }

  /** The profile: `steps` depths at the given (x, y), for pixel (0, 0), top to bottom of the range in order. */
  function ProfileSamples(position: Vec2, range: Domain, steps: nat): (ss: seq<Sample>)
    ensures |ss| == steps
  {
    seq(steps, j requires 0 <= j < steps =>
      Sample(Vec3(position.x, position.y, BinCentre(range, j, steps)), PixelIndex(0, 0)))
  }

  /** Every profile sample is at the requested (x, y), for pixel (0, 0), strictly inside the range. */
  lemma ProfileSamplesInside(position: Vec2, range: Domain, steps: nat)
    requires range.lower < range.upper
    ensures var ss := ProfileSamples(position, range, steps);
      forall j :: 0 <= j < steps ==>
        ss[j].pos.x == position.x && ss[j].pos.y == position.y && ss[j].pixel == PixelIndex(0, 0) &&
        range.lower < ss[j].pos.z < range.upper
  {
  }

  /** The profile's depths increase strictly from sample to sample. */
  lemma ProfileDepthsIncrease(position: Vec2, range: Domain, steps: nat, j: nat, k: nat)
    requires range.lower < range.upper && j < k < steps
    ensures ProfileSamples(position, range, steps)[j].pos.z < ProfileSamples(position, range, steps)[k].pos.z
  {
    BinCentresIncrease(range, j, k, steps);
  }

  /** Row j of the map: the `steps` columns at depth bin j, at y = 0, for pixel (1, 0). */
  function MapRow(pitch: real, range: Domain, j: nat, steps: nat): (row: seq<Sample>)
    requires j < steps
    ensures |row| == steps
  {
    seq(steps, k requires 0 <= k < steps =>
      Sample(Vec3(MapX(pitch, k, steps), 0.0, BinCentre(range, j, steps)), PixelIndex(1, 0)))
  }

  /** The first `rows` rows of the map, row after row: rows * steps samples, all at y = 0 for pixel (1, 0). */
  function MapSamples(pitch: real, range: Domain, rows: nat, steps: nat): (ss: seq<Sample>)
    requires rows <= steps
    ensures |ss| == rows * steps
    ensures forall i :: 0 <= i < |ss| ==> ss[i].pos.y == 0.0 && ss[i].pixel == PixelIndex(1, 0)
  {
    if rows == 0 then [] else MapSamples(pitch, range, rows - 1, steps) + MapRow(pitch, range, rows - 1, steps)
  }

  /** Sample j * steps + k of the map is column k of depth bin j. */
  lemma {:induction false} MapSamplesIndex(pitch: real, range: Domain, rows: nat, steps: nat, j: nat, k: nat)
    requires rows <= steps && j < rows && k < steps
    ensures j * steps + k < |MapSamples(pitch, range, rows, steps)|
    ensures MapSamples(pitch, range, rows, steps)[j * steps + k] ==
      Sample(Vec3(MapX(pitch, k, steps), 0.0, BinCentre(range, j, steps)), PixelIndex(1, 0))
  {
    if j < rows - 1 {
      MapSamplesIndex(pitch, range, rows - 1, steps, j, k);
    } else {
      assert j * steps + k == (rows - 1) * steps + k;
    }
  }

  /** The 2-D map holds steps * steps samples: every x column at every depth bin, each strictly inside its range. */
  lemma MapCovers(pitch: real, range: Domain, steps: nat, j: nat, k: nat)
    requires range.lower < range.upper && pitch > 0.0 && j < steps && k < steps
    ensures |MapSamples(pitch, range, steps, steps)| == steps * steps
    ensures j * steps + k < steps * steps
    ensures var s := MapSamples(pitch, range, steps, steps)[j * steps + k];
      -1.5 * pitch < s.pos.x < 1.5 * pitch && s.pos.y == 0.0 &&
      range.lower < s.pos.z < range.upper && s.pixel == PixelIndex(1, 0)
  {
    MapSamplesIndex(pitch, range, steps, steps, j, k);
  }

  /** The loop filling the depth profile: one lookup per depth bin, top of the list first. */
  method ScanProfile(position: Vec2, range: Domain, steps: nat) returns (samples: seq<Sample>)
    ensures samples == ProfileSamples(position, range, steps)
  {
    samples := [];
    for j := 0 to steps
      invariant samples == ProfileSamples(position, range, steps)[..j]
    {
      var z := range.lower + ((j as real + 0.5) / steps as real) * (range.upper - range.lower);
      samples := samples + [Sample(Vec3(position.x, position.y, z), PixelIndex(0, 0))];
    }
  }

  /** The nested loop filling the map: depth bins outside, x columns inside. */
  method ScanMap(pitch: real, range: Domain, steps: nat) returns (samples: seq<Sample>)
    ensures samples == MapSamples(pitch, range, steps, steps)
  {
    samples := [];
    for j := 0 to steps
      invariant samples == MapSamples(pitch, range, j, steps)
    {
      var z := range.lower + ((j as real + 0.5) / steps as real) * (range.upper - range.lower);
      assert z == BinCentre(range, j, steps);
      for k := 0 to steps
        invariant samples == MapSamples(pitch, range, j, steps) + MapRow(pitch, range, j, steps)[..k]
      {
        var x := -1.5 * pitch + ((k as real + 0.5) / steps as real) * 3.0 * pitch;
        ghost var row := MapRow(pitch, range, j, steps);
        assert row[k] == Sample(Vec3(x, 0.0, z), PixelIndex(1, 0));
        assert row[..k + 1] == row[..k] + [Sample(Vec3(x, 0.0, z), PixelIndex(1, 0))];
        samples := samples + [Sample(Vec3(x, 0.0, z), PixelIndex(1, 0))];
      }
      assert MapRow(pitch, range, j, steps)[..steps] == MapRow(pitch, range, j, steps);
    }
  }

  /** The lookups behind both plots of a detector. */
  datatype Plots = Plots(profile: seq<Sample>, depthMap: seq<Sample>)

  /** The two scans over the detector's sensor, with `steps` bins per axis and the profile at `position`. */
  method CreatePlots(m: DetectorModel, steps: nat, position: Vec2) returns (plots: Plots)
    ensures plots.profile == ProfileSamples(position, PlotRange(m), steps)
    ensures plots.depthMap == MapSamples(m.pixelSize.x, PlotRange(m), steps, steps)
    ensures |plots.profile| == steps && |plots.depthMap| == steps * steps
  {
    var range := PlotRange(m);
    var profile := ScanProfile(position, range, steps);
    var depthMap := ScanMap(m.pixelSize.x, range, steps);
    plots := Plots(profile, depthMap);
  }
}
