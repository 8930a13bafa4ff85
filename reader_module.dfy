/**
 * The weighting potential reader module: it picks a field model from its
 * configuration, derives the thickness domain from the detector model, and
 * hands the detector either a grid read from an INIT file (scaled to the pixel
 * pitch) or the analytic pad potential. Optionally it samples the potential
 * for two diagnostic plots.
 *
 * The configuration is given with its keys already parsed; the parsed field
 * file, or the failure raised while reading it, is an input.
 */
module WeightingPotentialReader {
  import opened Wrappers
  import opened Floating
  import opened Geometry
  import opened DetectorMatch
  import opened OutputPlots
  import PadPotential

  /** The configuration keys the module reads; None is a key that is not set. */
  datatype Settings = Settings(
    model: Option<string>,
    outputPlots: Option<bool>,
    outputPlotsSteps: Option<nat>,
    outputPlotsPosition: Option<Vec2>)

  /** The configuration errors the module raises. */
  datatype ModuleError =
    | MissingKeyError(key: string)
    | InvalidValueError(key: string, reason: string)

  /** How reading the field file can fail: the exceptions the parser throws, or a configuration error of the path lookup. */
  datatype FetchFailure =
    | InvalidArgument(what: string)
    | RuntimeError(what: string)
    | BadAlloc
    | ConfigurationFailure(error: ModuleError)

  /** Number of cells per axis. */
  datatype Cells = Cells(x: nat, y: nat, z: nat)

  /** A parsed field file: the values, the number of cells per axis, and the field's physical extent. */
  datatype FieldData = FieldData(values: seq<real>, cells: Cells, size: Vec3)

  /** What the detector is given as its weighting potential. */
  datatype WeightingPotential =
    | Grid(values: seq<real>, cells: Cells, scale: (Double, Double), offset: (real, real), domain: Domain)
    | Function(lookup: Vec3 -> Double, domain: Domain)

  /** The two field models the `model` key selects. */
  datatype FieldModel = InitFile | PadCondenser

  const ModelKey: string := "model"
  const FileNameKey: string := "file_name"
  const ModelReason: string := "model should be 'init' or `pad`"
  const FileTooLarge: string := "file too large"

  /** The field model named by the `model` key; any other name is an invalid value of that key. */
  function SelectFieldModel(name: string): (r: Result<FieldModel, ModuleError>)
    ensures r == Success(InitFile) <==> name == "init"
    ensures r == Success(PadCondenser) <==> name == "pad"
    ensures r.Failure? <==> name != "init" && name != "pad"
    ensures r.Failure? ==> r.error == InvalidValueError(ModelKey, ModelReason)
  {
    if name == "init" then Success(InitFile)
    else if name == "pad" then Success(PadCondenser)
    else Failure(InvalidValueError(ModelKey, ModelReason))
  }

  /** The error a failed field read is reported as: the parser's exceptions become invalid values of `file_name`. */
  function TranslateFetchFailure(f: FetchFailure): (e: ModuleError)
    ensures f.InvalidArgument? || f.RuntimeError? ==> e == InvalidValueError(FileNameKey, f.what)
    ensures f.BadAlloc? ==> e == InvalidValueError(FileNameKey, FileTooLarge)
    ensures f.ConfigurationFailure? ==> e == f.error
  {
    match f
    case InvalidArgument(what) => InvalidValueError(FileNameKey, what)
    case RuntimeError(what) => InvalidValueError(FileNameKey, what)
    case BadAlloc => InvalidValueError(FileNameKey, FileTooLarge)
    case ConfigurationFailure(error) => error
  }

  /** Every exception of the parser itself is reported against `file_name`, never against another key. */
  lemma ParserFailuresBlameFileName(f: FetchFailure)
    requires !f.ConfigurationFailure?
    ensures TranslateFetchFailure(f).InvalidValueError?
    ensures TranslateFetchFailure(f).key == FileNameKey
  {
  }

  /** The grid scale: the field's extent on each in-plane axis in units of the pixel pitch on that axis. */
  function FieldScale(size: Vec3, pitch: Vec2): (scale: (Double, Double))
    ensures pitch.x != 0.0 ==> scale.0.Finite? && scale.0.value * pitch.x == size.x
    ensures pitch.y != 0.0 ==> scale.1.Finite? && scale.1.value * pitch.y == size.y
    ensures pitch.x == 0.0 ==> !scale.0.Finite?
    ensures pitch.y == 0.0 ==> !scale.1.Finite?
  {
    (Divide(Finite(size.x), pitch.x), Divide(Finite(size.y), pitch.y))
  }

  /** A field a whole number of pixels wide has that number as its scale. */
  lemma WholePixelScale(size: Vec3, pitch: Vec2, nx: int, ny: int)
    requires pitch.x != 0.0 && pitch.y != 0.0
    requires size.x == nx as real * pitch.x && size.y == ny as real * pitch.y
    ensures FieldScale(size, pitch) == (Finite(nx as real), Finite(ny as real))
  {
    assert size.x / pitch.x == nx as real;
    assert size.y / pitch.y == ny as real;
  }

  /** The number of bins per plot axis, 500 unless configured. */
  function PlotSteps(settings: Settings): (steps: nat)
    ensures settings.outputPlotsSteps.None? ==> steps == 500
    ensures settings.outputPlotsSteps.Some? ==> steps == settings.outputPlotsSteps.value
  {
    settings.outputPlotsSteps.GetOr(DefaultSteps)
  }

  /** The (x, y) of the depth profile, the origin unless configured. */
  function PlotPosition(settings: Settings): (position: Vec2)
    ensures settings.outputPlotsPosition.None? ==> position == Vec2(0.0, 0.0)
    ensures settings.outputPlotsPosition.Some? ==> position == settings.outputPlotsPosition.value
  {
    settings.outputPlotsPosition.GetOr(DefaultPosition)
  }

  /** The samples of both plots for a detector model. */
  function PlotsFor(settings: Settings, m: DetectorModel): Plots {
    var steps := PlotSteps(settings);
    Plots(ProfileSamples(PlotPosition(settings), PlotRange(m), steps), MapSamples(m.pixelSize.x, PlotRange(m), steps, steps))
  }

  /** What a successful initialisation leaves behind. */
  datatype Setup = Setup(potential: WeightingPotential, warnings: seq<Warning>, plots: Option<Plots>)

  /**
   * The outcome of initialising the module for a detector model: the field
   * model is dispatched on, the thickness domain computed, and for `init` the
   * field read (or its failure translated) and checked against the detector.
   * Plots are made after a successful set-up when `output_plots` is true.
   */
  function InitOutcome(lib: Libm, settings: Settings, m: DetectorModel, fetched: Result<FieldData, FetchFailure>): (r: Result<Setup, ModuleError>)
    ensures settings.model.None? ==> r == Failure(MissingKeyError(ModelKey))
    ensures r.Success? <==>
      settings.model == Some("pad") || (settings.model == Some("init") && fetched.Success?)
    ensures settings.model.Some? && settings.model.value != "init" && settings.model.value != "pad" ==>
      r == Failure(InvalidValueError(ModelKey, ModelReason))
    ensures settings.model == Some("init") && fetched.Failure? ==>
      r == Failure(TranslateFetchFailure(fetched.error))
    ensures r.Success? ==> r.value.potential.domain == ThicknessDomain(m)
    ensures r.Success? && settings.model == Some("init") ==>
      r.value.potential == Grid(fetched.value.values, fetched.value.cells,
        FieldScale(fetched.value.size, m.pixelSize), (0.0, 0.0), ThicknessDomain(m)) &&
      r.value.warnings == DetectorMatchWarnings(fetched.value.size, ThicknessDomain(m), Some(m))
    ensures r.Success? && settings.model == Some("pad") ==>
      r.value.potential == Function(PadPotential.PotentialFunction(lib, m.implantSize, ThicknessDomain(m)), ThicknessDomain(m)) &&
      r.value.warnings == []
    ensures r.Success? ==>
      (r.value.plots.Some? <==> settings.outputPlots == Some(true)) &&
      (r.value.plots.Some? ==> r.value.plots.value == PlotsFor(settings, m))
  {
    match settings.model
    case None => Failure(MissingKeyError(ModelKey))
    case Some(name) =>
      var domain := ThicknessDomain(m);
      var plots := if settings.outputPlots.GetOr(false) then Some(PlotsFor(settings, m)) else None;
      match SelectFieldModel(name)
      case Failure(e) => Failure(e)
      case Success(InitFile) =>
        (match fetched
         case Failure(f) => Failure(TranslateFetchFailure(f))
         case Success(field) =>
           Success(Setup(
             Grid(field.values, field.cells, FieldScale(field.size, m.pixelSize), (0.0, 0.0), domain),
             DetectorMatchWarnings(field.size, domain, Some(m)),
             plots)))
      case Success(PadCondenser) =>
        Success(Setup(Function(PadPotential.PotentialFunction(lib, m.implantSize, domain), domain), [], plots))
  }

  /** The detector as far as the module uses it: its model, which may be missing, and the potential it was given. */
  class Detector {
    const model: Option<DetectorModel>
    var weightingPotential: Option<WeightingPotential>

    constructor(model: Option<DetectorModel>)
      ensures this.model == model && weightingPotential == None
    {
      this.model := model;
      weightingPotential := None;
    }

    /** setWeightingPotentialGrid / setWeightingPotentialFunction */
    method SetWeightingPotential(p: WeightingPotential)
      modifies this
      ensures weightingPotential == Some(p)
    {
      weightingPotential := Some(p);
    }
  }

  /** The module: its configuration, its detector, the warnings it has logged and the plots it has made. */
  class ReaderModule {
    const settings: Settings
    const detector: Detector
    const lib: Libm
    var warnings: seq<Warning>
    var plots: Option<Plots>

    constructor(settings: Settings, detector: Detector, lib: Libm)
      ensures this.settings == settings && this.detector == detector && this.lib == lib
      ensures warnings == [] && plots == None
    {
      this.settings := settings;
      this.detector := detector;
      this.lib := lib;
      warnings := [];
      plots := None;
    }

    /** Logs a warning for each mismatch between the field's extent and the detector; a missing model is not checked. */
    method CheckDetectorMatch(size: Vec3, domain: Domain)
      modifies this
      ensures warnings == old(warnings) + DetectorMatchWarnings(size, domain, detector.model)
      ensures plots == old(plots)
    {
      var model := detector.model;
      if model.Some? {
        var effThickness := domain.upper - domain.lower;
        if FAbs(size.z - effThickness) > Epsilon {
          warnings := warnings + [ThicknessMismatch(size.z, effThickness)];
        }
        if Greater(FMod(size.x, model.value.pixelSize.x), Epsilon) || Greater(FMod(size.y, model.value.pixelSize.y), Epsilon) {
          warnings := warnings + [PitchMismatch(size.x, size.y, model.value.pixelSize)];
        }
      }
    }

    /** Takes the parsed field, checks it against the detector, and turns the parser's failures into configuration errors. */
    method ReadInitField(fetched: Result<FieldData, FetchFailure>, domain: Domain) returns (r: Result<FieldData, ModuleError>)
      modifies this
      ensures fetched.Failure? ==> r == Failure(TranslateFetchFailure(fetched.error)) && warnings == old(warnings)
      ensures fetched.Success? ==>
        r == Success(fetched.value) &&
        warnings == old(warnings) + DetectorMatchWarnings(fetched.value.size, domain, detector.model)
      ensures plots == old(plots)
    {
      match fetched
      case Failure(f) =>
        r := Failure(TranslateFetchFailure(f));
      case Success(field) =>
        CheckDetectorMatch(field.size, domain);
        r := Success(field);
    }

    /** Samples the potential for the depth profile and the map. */
    method CreateOutputPlots()
      requires detector.model.Some?
      modifies this
      ensures plots == Some(PlotsFor(settings, detector.model.value))
      ensures warnings == old(warnings)
    {
      var m := detector.model.value;
      var p := CreatePlots(m, PlotSteps(settings), PlotPosition(settings));
      plots := Some(p);
    }

    /**
     * Sets up the detector's weighting potential. The detector model must be
     * present: the thickness domain is computed from it unconditionally.
     */
    method Init(fetched: Result<FieldData, FetchFailure>) returns (error: Option<ModuleError>)
      requires detector.model.Some?
      modifies this, detector
      ensures var outcome := InitOutcome(lib, settings, detector.model.value, fetched);
        match outcome
        case Failure(e) =>
          error == Some(e) && warnings == old(warnings) && plots == old(plots) &&
          detector.weightingPotential == old(detector.weightingPotential)
        case Success(setup) =>
          error == None && warnings == old(warnings) + setup.warnings &&
          detector.weightingPotential == Some(setup.potential) &&
          (if setup.plots.Some? then plots == setup.plots else plots == old(plots))
    {
      if settings.model.None? {
        return Some(MissingKeyError(ModelKey));
      }
      var fieldModel := settings.model.value;
      var m := detector.model.value;
      var domain := ThicknessDomain(m);
      if fieldModel == "init" {
        var fieldData := ReadInitField(fetched, domain);
        if fieldData.Failure? {
          return Some(fieldData.error);
        }
        var field := fieldData.value;
        var scale := FieldScale(field.size, m.pixelSize);
        detector.SetWeightingPotential(Grid(field.values, field.cells, scale, (0.0, 0.0), domain));
      } else if fieldModel == "pad" {
        detector.SetWeightingPotential(Function(PadPotential.PotentialFunction(lib, m.implantSize, domain), domain));
      } else {
        return Some(InvalidValueError(ModelKey, ModelReason));
      }
      if settings.outputPlots.GetOr(false) {
        CreateOutputPlots();
      }
      error := None;
    }
  }
}
