/** The run modes of the model (`RunMode`, defined in `model/base.py`, which
    is not part of this model). Python lets a caller pass any value, so the
    datatype has a case for values that are neither mode. */
module RunModes {
  datatype RunMode = OneStepAhead | FreeRunSimulation | Other(name: string)
}

/** `DynamicModel`: owns a sequence predictor, a run mode, the
    autoregressive flag, the input/output delay and optional normalizers,
    and routes each call to one-step-ahead prediction or free-run
    simulation. */
module DynamicModels {
  import opened Results
  import opened Signals
  import opened Delay
  import opened Predictors
  import opened Windows
  import opened FreeRun
  import RunModes

  /** A normalizer, applied only at the boundary of `forward`. */
  datatype Normalizer = Normalizer(normalize: Signal -> Signal, unnormalize: Signal -> Signal)

  datatype DynamicModel<!S> = DynamicModel(
    numInputs: nat,
    numOutputs: nat,
    ar: bool,
    ioDelay: int,
    normalizerInput: Option<Normalizer>,
    normalizerOutput: Option<Normalizer>,
    zeroInitialState: bool,
    mode: RunModes.RunMode,
    m: Predictor<S>)

  /** The constructor, given the already built predictor: a new model is in
      one-step-ahead mode with `zero_initial_state` off, and the predictor's
      requested-output setting is left as the predictor was built. */
  function Create<S>(numInputs: nat, numOutputs: nat, ar: bool, ioDelay: int,
                     normalizerInput: Option<Normalizer>, normalizerOutput: Option<Normalizer>,
                     m: Predictor<S>): (model: DynamicModel<S>)
    ensures model.mode == RunModes.OneStepAhead && !model.zeroInitialState
    ensures model.m == m
    ensures && model.numInputs == numInputs && model.numOutputs == numOutputs
            && model.ar == ar && model.ioDelay == ioDelay
            && model.normalizerInput == normalizerInput && model.normalizerOutput == normalizerOutput
  {
    DynamicModel(numInputs, numOutputs, ar, ioDelay, normalizerInput, normalizerOutput,
                 false, RunModes.OneStepAhead, m)
  }

  /** `num_model_inputs`: the predictor's input width. */
  function NumModelInputs<S>(model: DynamicModel<S>): (k: nat)
    ensures model.ar ==> k == model.numInputs + model.numOutputs
    ensures !model.ar ==> k == model.numInputs
  {
    if model.ar then model.numInputs + model.numOutputs else model.numInputs
  }

  /** `set_mode`: the mode and the flag are stored before the mode is
      checked, so an unknown mode is stored too and only the predictor's
      setting is left alone. One-step-ahead asks the predictor for output as
      long as its input, free-run simulation for a single step. */
  function SetMode<S>(model: DynamicModel<S>, mode: RunModes.RunMode, zeroInitialState: bool): (r: (DynamicModel<S>, Outcome))
    ensures r.0.mode == mode && r.0.zeroInitialState == zeroInitialState
    ensures r.1 == Pass <==> mode == RunModes.OneStepAhead || mode == RunModes.FreeRunSimulation
    ensures r.1.Fail? ==> r.1.error == UnknownMode && r.0.m == model.m
    ensures mode == RunModes.OneStepAhead ==> r.0.m.requested == Same
    ensures mode == RunModes.FreeRunSimulation ==> r.0.m.requested == Steps(1)
    ensures r.0.m == model.m.SetRequestedOutput(r.0.m.requested)
    ensures r.0 == model.(mode := mode, zeroInitialState := zeroInitialState, m := r.0.m)
  {
    var stored := model.(mode := mode, zeroInitialState := zeroInitialState);
    match mode
    case OneStepAhead => (stored.(m := model.m.SetRequestedOutput(Same)), Pass)
    case FreeRunSimulation => (stored.(m := model.m.SetRequestedOutput(Steps(1))), Pass)
    case Other(_) => (stored, Fail(UnknownMode))
  }

  /** Only the last successful `set_mode` matters: a valid mode overrides
      whatever an earlier call stored or pushed into the predictor. */
  lemma SetModeLastWins<S>(model: DynamicModel<S>, first: RunModes.RunMode, z1: bool,
                           second: RunModes.RunMode, z2: bool)
    requires !second.Other?
    ensures SetMode(SetMode(model, first, z1).0, second, z2) == SetMode(model, second, z2)
  {
  }

  /** The input the predictor sees in one-step-ahead mode: the delayed input
      followed, when `ar` is set, by the true output delayed by exactly one
      step (`F.pad(y[:, :, :-1], [1, 0])`). With `ar` the target is
      required, and the two parts must have the same length for
      `torch.cat`. */
  function OneStepInput<S>(model: DynamicModel<S>, u: Signal, y: Option<Signal>): (r: Result<Signal>)
    ensures !model.ar ==> r == Ok(Shift(u, model.ioDelay))
    ensures model.ar && y.None? ==> r == Err(MissingTarget)
    ensures model.ar && y.Some? ==>
              (r.Ok? <==> |Shift(u, model.ioDelay).frames| == Max(|y.value.frames|, 1))
    ensures model.ar && r.Ok? ==>
              && r.value.channels == u.channels + y.value.channels
              && |r.value.frames| == |Shift(u, model.ioDelay).frames|
              && forall t | 0 <= t < |r.value.frames| ::
                   r.value.frames[t] == At(u, t - model.ioDelay) + At(y.value, t - 1)
  {
    var uDelayed := Shift(u, model.ioDelay);
    if model.ar then
      if y.None? then Err(MissingTarget)
      else TeacherForced(uDelayed, y.value)
    else Ok(uDelayed)
  }

  /** The autoregressive part of the one-step-ahead input: the delayed input
      followed by the target delayed by one step. */
  function TeacherForced(uDelayed: Signal, y: Signal): (r: Result<Signal>)
    ensures r.Ok? <==> |uDelayed.frames| == Max(|y.frames|, 1)
    ensures r.Err? ==> r.error == ShapeMismatch
    ensures r.Ok? ==> && r.value.channels == uDelayed.channels + y.channels
                      && |r.value.frames| == |uDelayed.frames|
                      && forall t | 0 <= t < |r.value.frames| :: r.value.frames[t] == uDelayed.frames[t] + At(y, t - 1)
  {
    // `F.pad(y[:, :, :-1], [1, 0])` is exactly the delay shift by one step
    var yDelayed := Shift(y, 1);
    Cat(uDelayed, yDelayed)
  }

  /** `one_step_ahead`: one predictor call over the whole teacher-forced
      input; a stateful predictor starts from a fresh state and its final
      state is dropped. */
  function OneStepAhead<S>(model: DynamicModel<S>, u: Signal, y: Option<Signal>): (r: Result<Signal>)
    ensures r.Ok? <==> OneStepInput(model, u, y).Ok?
    ensures r.Err? ==> r.error == OneStepInput(model, u, y).error
    ensures r.Ok? && model.m.Stateless? ==>
              r.value == model.m.apply(model.m.requested, OneStepInput(model, u, y).value)
    ensures r.Ok? && model.m.Stateful? ==>
              r.value == model.m.step(model.m.requested, OneStepInput(model, u, y).value, model.m.initHidden).0
  {
    var x :- OneStepInput(model, u, y);
    Ok(model.m.Invoke(x, model.m.InitHidden()).0)
  }

  /** The predictor's input width is `num_model_inputs` in both executors,
      provided `u` and `y` have the configured widths: the one-step-ahead
      input, and the concatenated windows of any free-run step. */
  lemma ModelInputWidth<S>(model: DynamicModel<S>, u: Signal, y: Option<Signal>, b: Signal, i: nat)
    requires u.channels == model.numInputs
    requires y.Some? ==> y.value.channels == model.numOutputs
    requires b.channels == model.numOutputs
    ensures OneStepInput(model, u, y).Ok? ==> OneStepInput(model, u, y).value.channels == NumModelInputs(model)
    ensures var x := Cat(InputWindow(Shift(u, model.ioDelay), i, model.m.rf), OutputWindow(b, i, model.m.rf));
            model.ar && x.Ok? ==> x.value.channels == NumModelInputs(model)
  {
  }

  /** The first free-run step: `0` with `zero_initial_state`, else `rf`. */
  function FreeRunStart<S>(model: DynamicModel<S>): (start: nat)
    ensures start <= model.m.rf
    ensures start == 0 <==> model.zeroInitialState || model.m.rf == 0
    ensures !model.zeroInitialState ==> start == model.m.rf
  {
    if model.zeroInitialState then 0 else model.m.rf
  }

  /** A free-run result for the call `(u, y)`: a rollout of the predictor over
      the delayed input, seeded from `y`, over the steps from the start to
      the length of `u`. */
  ghost predicate IsFreeRunResult<S>(model: DynamicModel<S>, u: Signal, y: Option<Signal>, s: Signal) {
    && y.Some?
    && IsRollout(model.m, Shift(u, model.ioDelay), y.value, FreeRunStart(model), |u.frames|, s)
  }

  /** `free_run_simulation`. Without `ar` it is one-step-ahead prediction.
      With `ar` it needs the target, runs the loop from the start step to
      the length of `u`, and returns the unique free-run result or fails
      when there is none. */
  method FreeRunSimulation<S>(model: DynamicModel<S>, u: Signal, y: Option<Signal>) returns (r: Result<Signal>)
    ensures !model.ar ==> r == OneStepAhead(model, u, y)
    ensures model.ar && y.None? ==> r == Err(MissingTarget)
    ensures model.ar && r.Ok? ==> IsFreeRunResult(model, u, y, r.value)
    ensures model.ar ==> forall s | IsFreeRunResult(model, u, y, s) :: r == Ok(s)
  {
    if model.ar {
      if y.None? {
        return Err(MissingTarget);
      }
      var seqLen := |u.frames|;
      var uDelayed := Shift(u, model.ioDelay);
      r := Simulate(model.m, uDelayed, y.value, FreeRunStart(model), seqLen);
    } else {
      r := OneStepAhead(model, u, y);
    }
  }

  /** The input normalization at the start of `forward`, when configured. */
  function NormalizeInput<S>(model: DynamicModel<S>, u: Signal): (r: Signal)
    ensures model.normalizerInput.None? ==> r == u
    ensures model.normalizerInput.Some? ==> r == model.normalizerInput.value.normalize(u)
  {
    match model.normalizerInput
    case Some(nz) => nz.normalize(u)
    case None => u
  }

  /** The target normalization: only a present target is normalized. */
  function NormalizeTarget<S>(model: DynamicModel<S>, y: Option<Signal>): (r: Option<Signal>)
    ensures r.Some? <==> y.Some?
    ensures model.normalizerOutput.None? ==> r == y
    ensures y.Some? && model.normalizerOutput.Some? ==> r.value == model.normalizerOutput.value.normalize(y.value)
  {
    match (y, model.normalizerOutput)
    case (Some(v), Some(nz)) => Some(nz.normalize(v))
    case _ => y
  }

  /** Output un-normalization; an error passes through untouched. */
  function Denormalize<S>(model: DynamicModel<S>, prediction: Result<Signal>): (r: Result<Signal>)
    ensures r.Ok? <==> prediction.Ok?
    ensures prediction.Err? || model.normalizerOutput.None? ==> r == prediction
    ensures prediction.Ok? && model.normalizerOutput.Some? ==>
              r.value == model.normalizerOutput.value.unnormalize(prediction.value)
  {
    match (prediction, model.normalizerOutput)
    case (Ok(v), Some(nz)) => Ok(nz.unnormalize(v))
    case _ => prediction
  }

  /** `forward`: normalize, dispatch on the stored mode, un-normalize. An
      unrecognised mode fails after normalization. */
  method Forward<S>(model: DynamicModel<S>, u: Signal, y: Option<Signal>) returns (r: Result<Signal>)
    ensures model.mode.Other? ==> r == Err(UnsupportedMode)
    ensures model.mode == RunModes.OneStepAhead || (model.mode == RunModes.FreeRunSimulation && !model.ar) ==>
              r == Denormalize(model, OneStepAhead(model, NormalizeInput(model, u), NormalizeTarget(model, y)))
    ensures model.mode == RunModes.FreeRunSimulation && model.ar ==>
              && (NormalizeTarget(model, y).None? ==> r == Err(MissingTarget))
              && (r.Ok? ==> exists s :: IsFreeRunResult(model, NormalizeInput(model, u), NormalizeTarget(model, y), s)
                                        && r == Denormalize(model, Ok(s)))
              && forall s | IsFreeRunResult(model, NormalizeInput(model, u), NormalizeTarget(model, y), s) ::
                   r == Denormalize(model, Ok(s))
  {
    var uN := NormalizeInput(model, u);
    var yN := NormalizeTarget(model, y);
    var prediction: Result<Signal>;
    match model.mode {
      case OneStepAhead =>
        prediction := OneStepAhead(model, uN, yN);
      case FreeRunSimulation =>
        prediction := FreeRunSimulation(model, uN, yN);
      case Other(_) =>
        return Err(UnsupportedMode);
    }
    r := Denormalize(model, prediction);
    if model.mode == RunModes.FreeRunSimulation && model.ar && prediction.Ok? {
      assert IsFreeRunResult(model, uN, yN, prediction.value);
    }
  }
}
