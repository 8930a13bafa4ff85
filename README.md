# Weighting potential reader (Allpix Squared), modelled in Dafny

This project models the module of Allpix Squared that gives a detector its
weighting potential, and proves properties of that model.

- **Model choice.** The `model` configuration key selects the field model.
  `init` reads a grid from an INIT field file. `pad` uses the analytic
  potential of a rectangular pad in a plane condenser
  (doi:10.1016/j.nima.2014.08.044). Any other name is an invalid value of `model`.
- **Thickness domain.** This is the depth interval the potential is defined over.
  It ends at the top face of the sensor and is as deep as the sensor is thick.
- **Grid path.** The field's extent is scaled to the pixel pitch, and the offset
  is zero. The field is checked against the detector first; the check only logs
  warnings. The parser's exceptions become invalid values of `file_name`.
- **Pad path.** The potential is `f(local z)` minus a 100-term method-of-images
  series, divided by 2π. Here `f` is a signed sum of four corner arctangents.
- **Plots.** When `output_plots` is set, the module samples the potential at bin
  centres. There are two scans: a depth profile at one (x, y), and a map over x
  and depth across three pixels.

Doubles are exact reals, but infinities and not-a-number are kept (`Floating.Double`).
The pad formula divides by local z, which is 0 on the readout plane, so its value
there depends on them. On that plane the model proves the potential is:

- 1 inside the implant footprint;
- 0 beside it;
- not a number on the footprint's edge lines.

`atan` and `sqrt` are uninterpreted functions, supplied as a `Floating.Libm`.

Modules:

- `Floating`: double arithmetic, `fabs`, `fmod`.
- `Geometry`: vectors, the detector model, the thickness domain.
- `PadPotential`: the `pad` model.
- `DetectorMatch`: the field/detector consistency check.
- `OutputPlots`: the plot sample points and the loops that produce them.
- `WeightingPotentialReader`: configuration, error translation, and the module
  and detector as classes.
- `Wrappers`: `Option` and `Result`.

## Model

| member | source | states |
|---|---|---|
| Geometry.ThicknessDomain | src/modules/WeightingPotentialReader/WeightingPotentialReaderModule.cpp:42-44 | the domain ends at sensor centre z plus half the thickness, is exactly as wide as the sensor is thick, and is non-empty iff the thickness is positive |
| Geometry.ThicknessDomainCentred | src/modules/WeightingPotentialReader/WeightingPotentialReaderModule.cpp:42-44 | the domain starts half a thickness below the sensor centre and is centred on it |
| WeightingPotentialReader.SelectFieldModel | src/modules/WeightingPotentialReader/WeightingPotentialReaderModule.cpp:47-66 | `init` selects the grid, `pad` the pad function, each iff the name is that string; every other name fails with InvalidValueError on `model` and the fixed reason |
| WeightingPotentialReader.FieldScale | src/modules/WeightingPotentialReader/WeightingPotentialReaderModule.cpp:50-53 | for a non-zero pitch the scale on each axis is finite and times the pitch gives back the field extent; a zero pitch gives no finite scale |
| WeightingPotentialReader.WholePixelScale | src/modules/WeightingPotentialReader/WeightingPotentialReaderModule.cpp:50-53 | a field n pixels wide on an axis has scale exactly n on that axis |
| WeightingPotentialReader.TranslateFetchFailure | src/modules/WeightingPotentialReader/WeightingPotentialReaderModule.cpp:195-201 | invalid_argument and runtime_error become InvalidValueError on `file_name` with their message; bad_alloc becomes it with "file too large"; configuration errors pass unchanged |
| WeightingPotentialReader.ParserFailuresBlameFileName | src/modules/WeightingPotentialReader/WeightingPotentialReaderModule.cpp:195-201 | every parser exception is reported as an invalid value of `file_name` |
| WeightingPotentialReader.PlotSteps | src/modules/WeightingPotentialReader/WeightingPotentialReaderModule.cpp:118 | the plots have 500 bins per axis unless `output_plots_steps` is set, and then that many |
| WeightingPotentialReader.PlotPosition | src/modules/WeightingPotentialReader/WeightingPotentialReaderModule.cpp:119 | the profile is taken at (0, 0) unless `output_plots_position` is set, and then there |
| WeightingPotentialReader.InitOutcome | src/modules/WeightingPotentialReader/WeightingPotentialReaderModule.cpp:37-72 | see the notes below the table |
| WeightingPotentialReader.Detector.SetWeightingPotential | src/modules/WeightingPotentialReader/WeightingPotentialReaderModule.cpp:55-56 | the detector holds exactly the potential it was given |
| WeightingPotentialReader.ReaderModule.constructor | src/modules/WeightingPotentialReader/WeightingPotentialReaderModule.cpp:32-35 | the module keeps its configuration and detector, with no warnings logged and no plots |
| WeightingPotentialReader.ReaderModule.CheckDetectorMatch | src/modules/WeightingPotentialReader/WeightingPotentialReaderModule.cpp:207-232 | appends exactly the warnings of DetectorMatchWarnings for the detector's model, and changes nothing else |
| WeightingPotentialReader.ReaderModule.ReadInitField | src/modules/WeightingPotentialReader/WeightingPotentialReaderModule.cpp:178-202 | see the notes below the table |
| WeightingPotentialReader.ReaderModule.CreateOutputPlots | src/modules/WeightingPotentialReader/WeightingPotentialReaderModule.cpp:115-171 | the plots hold the profile and map samples for the configured steps (default 500) and position (default (0, 0)), and no warning is added |
| WeightingPotentialReader.ReaderModule.Init | src/modules/WeightingPotentialReader/WeightingPotentialReaderModule.cpp:37-72 | see the notes below the table |
| DetectorMatch.DetectorMatchWarnings | src/modules/WeightingPotentialReader/WeightingPotentialReaderModule.cpp:207-232 | see the notes below the table |
| DetectorMatch.MatchingFieldHasNoWarnings | src/modules/WeightingPotentialReader/WeightingPotentialReaderModule.cpp:224-230 | a field exactly as thick as the domain and a whole number of pitches wide on both axes draws no warning |
| DetectorMatch.ThicknessWithinEpsilonTolerated | src/modules/WeightingPotentialReader/WeightingPotentialReaderModule.cpp:217-221 | a thickness difference of at most epsilon either way draws no thickness warning |
| Floating.Trunc | src/modules/WeightingPotentialReader/WeightingPotentialReaderModule.cpp:224-225 | the conversion toward zero that fmod uses: its magnitude is at most that of its argument and within 1 of it, and a non-zero result has the argument's sign |
| Floating.FMod | src/modules/WeightingPotentialReader/WeightingPotentialReaderModule.cpp:224-225 | fmod by zero is not a number; otherwise it is the finite remainder: the dividend minus a whole multiple of the divisor, smaller in magnitude than the divisor, and zero or of the sign of the dividend |
| Floating.FModOfMultiple | src/modules/WeightingPotentialReader/WeightingPotentialReaderModule.cpp:224-225 | fmod of a whole multiple of a non-zero pitch is exactly 0 |
| PadPotential.CornerArctan | src/modules/WeightingPotentialReader/WeightingPotentialReaderModule.cpp:87-89 | a corner term atan(a·b / c / sqrt(a² + b² + c²)) is never infinite, whatever c |
| PadPotential.Corners | src/modules/WeightingPotentialReader/WeightingPotentialReaderModule.cpp:92-98 | f combines four corners; the first two are added, the last two subtracted |
| PadPotential.CornerSum | src/modules/WeightingPotentialReader/WeightingPotentialReaderModule.cpp:92-98 | a signed sum of corner terms is never infinite |
| PadPotential.F | src/modules/WeightingPotentialReader/WeightingPotentialReaderModule.cpp:85-99 | f is never infinite: a number or not a number at every (x, y, u) |
| PadPotential.FExpanded | src/modules/WeightingPotentialReader/WeightingPotentialReaderModule.cpp:92-98 | f is arctan(x1,y1) + arctan(x2,y2) − arctan(x1,y2) − arctan(x2,y1), evaluated left to right, with x1,2 = x ∓ ix/2 and y1,2 = y ∓ iy/2 |
| PadPotential.ImageSeries | src/modules/WeightingPotentialReader/WeightingPotentialReaderModule.cpp:106-109 | the series has exactly 100 image pairs |
| PadPotential.SumImageSeries | src/modules/WeightingPotentialReader/WeightingPotentialReaderModule.cpp:105-109 | the loop over n = 1..100 leaves in `sum` the left-to-right sum of the image pairs f(2nd − z) − f(2nd + z) |
| PadPotential.Potential | src/modules/WeightingPotentialReader/WeightingPotentialReaderModule.cpp:83-112 | the pad potential is never infinite: at every position it is a number or not a number |
| PadPotential.PotentialFunction | src/modules/WeightingPotentialReader/WeightingPotentialReaderModule.cpp:62-63 | the lookup handed to the detector for `pad` never returns an infinity |
| PadPotential.EvaluatePotential | src/modules/WeightingPotentialReader/WeightingPotentialReaderModule.cpp:83-111 | the lookup returns (f(local z) − sum) / (2π), with local z = upper − z and d = upper − lower |
| PadPotential.CornerArctanOffPlane | src/modules/WeightingPotentialReader/WeightingPotentialReaderModule.cpp:87-89 | off the readout plane (c ≠ 0) a corner term is a finite number |
| PadPotential.FFinite | src/modules/WeightingPotentialReader/WeightingPotentialReaderModule.cpp:85-99 | off the readout plane (u ≠ 0) f is a finite number |
| PadPotential.CornerArctanOnPlane | src/modules/WeightingPotentialReader/WeightingPotentialReaderModule.cpp:87-89 | on the readout plane a corner term off the edge lines is +π/2 when a and b have the same sign, −π/2 otherwise |
| PadPotential.CornerArctanOnEdge | src/modules/WeightingPotentialReader/WeightingPotentialReaderModule.cpp:87-89 | on the readout plane a corner term with a or b zero is 0/0, not a number |
| PadPotential.CornerArctanEven | src/modules/WeightingPotentialReader/WeightingPotentialReaderModule.cpp:87-89 | negating both corner offsets leaves a corner term unchanged |
| PadPotential.AccumulateZeros | src/modules/WeightingPotentialReader/WeightingPotentialReaderModule.cpp:105-109 | summing zeros from 0 gives 0 |
| PadPotential.AccumulateNotInfinite | src/modules/WeightingPotentialReader/WeightingPotentialReaderModule.cpp:105-109 | summing from 0 terms none of which is infinite never gives an infinity |
| PadPotential.ImageTermsCancelAtZero | src/modules/WeightingPotentialReader/WeightingPotentialReaderModule.cpp:107-108 | at local z = 0 each of the 100 image pairs is f(2nd) − f(2nd) = 0 when f is finite above the plane |
| PadPotential.SeriesVanishesAtZero | src/modules/WeightingPotentialReader/WeightingPotentialReaderModule.cpp:105-109 | at local z = 0 the whole series sums to 0 |
| PadPotential.ImagePotentialAtZero | src/modules/WeightingPotentialReader/WeightingPotentialReaderModule.cpp:111 | at local z = 0 the result reduces to f(0) / (2π) |
| PadPotential.ImagePotentialCongruent | src/modules/WeightingPotentialReader/WeightingPotentialReaderModule.cpp:106-111 | the result depends on f only through its values |
| PadPotential.PotentialOnReadoutPlane | src/modules/WeightingPotentialReader/WeightingPotentialReaderModule.cpp:102-111 | at z = upper the potential is f(x, y, 0) / (2π) |
| PadPotential.FOnPad | src/modules/WeightingPotentialReader/WeightingPotentialReaderModule.cpp:85-99 | strictly inside the implant footprint, on the readout plane, f is 2π |
| PadPotential.FBesidePad | src/modules/WeightingPotentialReader/WeightingPotentialReaderModule.cpp:85-99 | outside the footprint and off its edge lines, on the readout plane, f is 0 |
| PadPotential.FOnPadEdge | src/modules/WeightingPotentialReader/WeightingPotentialReaderModule.cpp:85-99 | on an edge line of the footprint, on the readout plane, f is not a number |
| PadPotential.UnitPotentialOnPad | src/modules/WeightingPotentialReader/WeightingPotentialReaderModule.cpp:83-111 | on the readout plane inside the footprint the potential is exactly 1 |
| PadPotential.ZeroPotentialBesidePad | src/modules/WeightingPotentialReader/WeightingPotentialReaderModule.cpp:83-111 | on the readout plane beside the footprint the potential is exactly 0 |
| PadPotential.NaNOnPadEdge | src/modules/WeightingPotentialReader/WeightingPotentialReaderModule.cpp:83-111 | on the readout plane on an edge line of the footprint the potential is not a number |
| PadPotential.FPointSymmetric | src/modules/WeightingPotentialReader/WeightingPotentialReaderModule.cpp:85-99 | f is unchanged under (x, y) → (−x, −y) |
| PadPotential.FAtPointSymmetric | src/modules/WeightingPotentialReader/WeightingPotentialReaderModule.cpp:85-99 | ... at every depth |
| PadPotential.ImagePotentialPointSymmetric | src/modules/WeightingPotentialReader/WeightingPotentialReaderModule.cpp:106-111 | the series of f seen from (−x, −y) equals the series seen from (x, y) |
| PadPotential.PotentialCongruent | src/modules/WeightingPotentialReader/WeightingPotentialReaderModule.cpp:83-111 | two positions at the same depth whose f agree at every depth have the same potential |
| PadPotential.PotentialPointSymmetric | src/modules/WeightingPotentialReader/WeightingPotentialReaderModule.cpp:83-111 | the potential is unchanged under the point reflection through the pad axis |
| PadPotential.PotentialDependsOnLocalZ | src/modules/WeightingPotentialReader/WeightingPotentialReaderModule.cpp:101-103 | shifting the domain and the position by the same depth leaves the potential unchanged |
| OutputPlots.PlotRange | src/modules/WeightingPotentialReader/WeightingPotentialReaderModule.cpp:123-124 | the plotted depth range is as wide as the sensor is thick and centred on the sensor |
| OutputPlots.PlotRangeIsThicknessDomain | src/modules/WeightingPotentialReader/WeightingPotentialReaderModule.cpp:123-124 | the plotted [min, max] is the thickness domain |
| OutputPlots.BinFractionBounds | src/modules/WeightingPotentialReader/WeightingPotentialReaderModule.cpp:131 | (j + 0.5) / steps is strictly between 0 and 1 for j < steps |
| OutputPlots.BinCentre | src/modules/WeightingPotentialReader/WeightingPotentialReaderModule.cpp:131 | z_j = min + (j + 0.5) / steps · (max − min) lies strictly inside (min, max) |
| OutputPlots.BinCentreInBin | src/modules/WeightingPotentialReader/WeightingPotentialReaderModule.cpp:131 | z_j lies strictly inside the j-th of `steps` equal bins |
| OutputPlots.BinCentreSpacing | src/modules/WeightingPotentialReader/WeightingPotentialReaderModule.cpp:131 | consecutive z_j are one bin width apart |
| OutputPlots.BinCentresIncrease | src/modules/WeightingPotentialReader/WeightingPotentialReaderModule.cpp:130-137 | z_j increases strictly with j |
| OutputPlots.MapX | src/modules/WeightingPotentialReader/WeightingPotentialReaderModule.cpp:156-157 | x_k as written is the centre of bin k of `steps` over [−1.5 pitch, 1.5 pitch], and for a positive pitch lies strictly inside (−1.5 pitch, 1.5 pitch) |
| OutputPlots.ProfileSamples | src/modules/WeightingPotentialReader/WeightingPotentialReaderModule.cpp:130-137 | the profile has `steps` samples |
| OutputPlots.ProfileSamplesInside | src/modules/WeightingPotentialReader/WeightingPotentialReaderModule.cpp:130-137 | every profile sample is at the configured (x, y), for pixel (0, 0), strictly inside the depth range |
| OutputPlots.ProfileDepthsIncrease | src/modules/WeightingPotentialReader/WeightingPotentialReaderModule.cpp:130-137 | profile depths increase strictly from sample to sample |
| OutputPlots.MapRow | src/modules/WeightingPotentialReader/WeightingPotentialReaderModule.cpp:155-162 | one depth bin of the map has `steps` samples |
| OutputPlots.MapSamples | src/modules/WeightingPotentialReader/WeightingPotentialReaderModule.cpp:150-163 | the map's first `rows` depth bins hold rows · steps samples, all at y = 0 and for pixel (1, 0) |
| OutputPlots.MapSamplesIndex | src/modules/WeightingPotentialReader/WeightingPotentialReaderModule.cpp:150-163 | sample j · steps + k of the map is at (x_k, 0, z_j) for pixel (1, 0) |
| OutputPlots.MapCovers | src/modules/WeightingPotentialReader/WeightingPotentialReaderModule.cpp:150-163 | the map has steps² samples, each strictly inside both ranges, at y = 0, for pixel (1, 0) |
| OutputPlots.ScanProfile | src/modules/WeightingPotentialReader/WeightingPotentialReaderModule.cpp:130-137 | the profile loop produces exactly ProfileSamples, in order |
| OutputPlots.ScanMap | src/modules/WeightingPotentialReader/WeightingPotentialReaderModule.cpp:150-163 | the nested loop produces exactly MapSamples, depth bin by depth bin |
| OutputPlots.CreatePlots | src/modules/WeightingPotentialReader/WeightingPotentialReaderModule.cpp:115-163 | both scans over the sensor's depth range, with `steps` and `steps`² samples |

Notes on the longer contracts:

- **InitOutcome.**
  - A missing `model` is a MissingKeyError on `model`.
  - Success happens iff the model is `pad`, or it is `init` and the field was read.
  - Any other name is an InvalidValueError on `model`.
  - A failed read gives the translated error.
  - On success:
    - the potential's domain is the thickness domain;
    - for `init` the grid has the pitch-scaled size, offset (0, 0), and the detector-match warnings;
    - for `pad` it is the pad lookup function, with no warnings;
    - plots are made iff `output_plots` is true.
- **ReaderModule.ReadInitField.** A failed read is translated and logs nothing. A
  parsed field is returned unchanged, after its detector-match warnings are appended.
- **ReaderModule.Init.** The new state follows InitOutcome:
  - on failure: the error is returned, and the warnings, plots and detector are unchanged;
  - on success: no error, the detector holds the new potential, the warnings are
    extended, and plots are made iff requested.
- **DetectorMatchWarnings.**
  - There are no warnings without a model.
  - A thickness warning iff |thickness − domain width| > epsilon.
  - A pitch warning iff fmod on either axis exceeds epsilon.
  - There are at most these two, thickness first.

## Left out

- IEEE rounding, signed zero and subnormals. Finite doubles are exact reals, and a zero divisor is treated as +0.
- The numerical value of `atan` and `sqrt`. They stay uninterpreted. The potential's value is proved only on the readout plane, where the corner terms are ±π/2, 0/0 or finite.
- The mirror symmetries of the pad potential (x → −x alone). They need `atan` to be odd, which an uninterpreted `atan` does not give; only the point reflection is proved.
- The ROOT histograms (`TH1F`, `TH2F`, `Fill`, `SetOption`, `Write`). Only the sample points and their pixel are modelled.
- The `getWeightingPotential` lookups behind the histogram fills. Grid interpolation is detector code, which is not part of this model.
- `FieldParser::get_by_file_name`, the static field cache and the `getPath` existence check. The parsed field, or the failure raised while reading it, is an input; configuration errors from the path lookup pass through untranslated.
- The detector's setters. They are recorded as the potential the detector holds; the `FieldType::CUSTOM` tag is not recorded.
- Logging (`LOG`, `LOG_PROGRESS`, `Units::display`), including the cell count logged after a read.
- Parsing and type conversion of configuration values. The keys arrive as `Settings`, already typed, and a missing optional key takes its default.
- `static_cast<int>(steps)` for the histogram bin counts. `steps` is an unbounded natural.
- WeightingPotentialReader.ReaderModule.Init: requires the detector model to be present, because the source dereferences it unchecked when computing the thickness domain.
- src/modules/PulseTransfer/PulseTransferModule.hpp, src/modules/deposition_simple/SimpleDepositionModule.hpp, src/objects/Object.hpp and src/messages/ChargeDeposit.cpp are not part of this model. They hold declarations, a print stub, and a constructor with getters.
