# DynamicModel index-and-window logic, in Dafny

This project models the core of `DynamicModel` from the sysid-neuralnet
repository (`python-scripts/model/dynamic_model.py`). This is the layer
that decides which time slices of input and output history a sequence
predictor sees. It runs the predictor in two regimes:

- teacher-forced **one-step-ahead** prediction: the true past output is fed
  back, delayed by one step;
- **free-run simulation**: a scratch copy of the target is overwritten step
  by step with the predictor's own output. Each step reads back windows of
  the last `rf` outputs and delayed inputs, left-padded with zeros near the
  start.

Signals are modelled time-major with the batch axis dropped:
`Signal(channels, frames)`, where `frames[t]` is one sample across all
channels. Sample values are reals. They are only copied or zero-filled,
never computed with. Python's slicing rules (negative bounds, clamping)
are modelled exactly. This matters for the delay shifter when the delay is
longer than the signal. Each exception the code can raise is an `Err` of
the `Result` type: a bad mode, a missing target, a `torch.cat` length
mismatch, an empty predictor output, or a write that is past the end or
not broadcastable.

The predictor is opaque: a stateless function, or a stateful function with
an initial hidden state. Both receive the current requested-output setting.
`rf` is the predictor's requested input for one output step. The normalizers
are opaque function pairs applied at the boundary of `forward`.

The free-run loop (`FreeRun.Simulate`) is an in-place overwrite loop, as in
the source. It is specified against an independent description,
`FreeRun.IsRollout`, of what a free-run result is:

- it has the target's shape;
- it holds the target's values outside the simulated steps;
- at every simulated step, the predictor emits the result's own sample at
  that step when it is shown the result's own windows and the state threaded
  through the earlier steps.

The loop is proved to return such a result whenever it succeeds, and to
return it whenever one exists. So a free-run result is unique, and the loop
fails exactly when no such result exists.

Files: `results.dfy` (Option/Result/errors), `signals.dfy` (slicing, padding,
concatenation, last step, broadcast), `delay.dfy` (delay shifter),
`predictors.dfy` (predictor capability), `windows.dfy` (free-run windows),
`free_run.dfy` (free-run loop and its characterisation),
`dynamic_model.dfy` (run modes, mode switch, one-step-ahead, free-run entry
point, `forward`).

## Model

| member | source | states |
|---|---|---|
| Delay.Shift | python-scripts/model/dynamic_model.py:99-107 | the delayed signal keeps the width; it has the input's length when the delay is 0 and max(length, abs(delay)) otherwise; its sample at time t is the input's sample at t - delay, zero where that time does not exist |
| Delay.ShiftKeepsLength | python-scripts/model/dynamic_model.py:101-104 | the shift keeps the length if and only if abs(delay) is at most the length |
| Delay.ShiftByZero | python-scripts/model/dynamic_model.py:105-106 | a zero delay returns the signal unchanged |
| Delay.ShiftRoundTrip | python-scripts/model/dynamic_model.py:101-104 | shifting by d and back by -d restores every sample whose shifted position stayed inside the signal; the abs(d) samples pushed off the edge come back as zeros |
| Delay.ShiftWellShaped | python-scripts/model/dynamic_model.py:99-107 | a rectangular signal stays rectangular under any shift |
| Signals.Cat | python-scripts/model/dynamic_model.py:87 | channel-wise concatenation succeeds exactly when both parts have the same time length; the width is the sum of the widths |
| Signals.CatSplits | python-scripts/model/dynamic_model.py:55 | splitting a concatenated frame at the first part's width recovers both parts, so concatenation loses nothing |
| Signals.LastFrame | python-scripts/model/dynamic_model.py:91 | taking the last time step fails exactly on an output with no time steps, and otherwise yields the final sample |
| Signals.Broadcast | python-scripts/model/dynamic_model.py:94 | a written frame fits its slot exactly when it has the buffer's width or width 1; a width-1 frame is repeated across all channels |
| Windows.OutputWindow | python-scripts/model/dynamic_model.py:80-84 | while step i is inside the buffer, the output window is exactly rf steps long and holds the rf samples before i, reading zeros before time 0; past the buffer with rf > 0 it is shorter than rf |
| Windows.InputWindow | python-scripts/model/dynamic_model.py:80-85 | for a step inside the delayed input, the input window is exactly rf steps long and holds the rf samples ending at step i inclusive, reading zeros before time 0 |
| Windows.OutputWindowWarmUp | python-scripts/model/dynamic_model.py:80-81 | for i < rf the output window is rf - i zero steps followed by the whole history before i |
| Windows.InputWindowWarmUp | python-scripts/model/dynamic_model.py:80-82 | for i < rf the input window is rf - i - 1 zero steps followed by the delayed inputs up to and including step i |
| Windows.OutputWindowCausal | python-scripts/model/dynamic_model.py:84 | the output window at step i depends only on the samples before i, so the value being written at i is never read |
| FreeRun.StepOutcome | python-scripts/model/dynamic_model.py:80-93 | within both buffers a step can fail only on an empty predictor output; past the end of the output buffer with rf > 0 the windows cannot be concatenated |
| FreeRun.WriteStep | python-scripts/model/dynamic_model.py:89-94 | writing step i fails past the end or on a non-broadcastable frame; otherwise it changes step i only, and keeps the shape |
| FreeRun.RolloutStep | python-scripts/model/dynamic_model.py:79-94 | at each simulated step of a rollout, the predictor shown the rollout's own windows succeeds and emits the rollout's sample at that step; the state it returns is the state for the next step |
| FreeRun.RolloutCoversSteps | python-scripts/model/dynamic_model.py:79-94 | a rollout that simulates any step needs a target at least as long as the input |
| FreeRun.StepCausal | python-scripts/model/dynamic_model.py:80-94 | one step's outcome depends only on the buffer's samples before that step |
| FreeRun.ReplayCausal | python-scripts/model/dynamic_model.py:78-94 | the first t steps, and the state they thread, depend only on the samples before t, so predictions are fed back strictly forward in time |
| FreeRun.Simulate | python-scripts/model/dynamic_model.py:71-94 | overwriting the copied target in increasing step order yields a rollout; any rollout is what it yields; and it fails whenever steps remain to be written past the end of the target |
| FreeRun.RolloutUnique | python-scripts/model/dynamic_model.py:78-94 | two rollouts of the same call are equal: each simulated step is fixed by the steps before it |
| DynamicModels.Create | python-scripts/model/dynamic_model.py:9-32 | a new model stores its configuration, starts in one-step-ahead mode with zero_initial_state off, and leaves the predictor's requested-output setting as built |
| DynamicModels.SetMode | python-scripts/model/dynamic_model.py:40-48 | the mode and zero_initial_state are stored even on the error path; one-step-ahead requests 'same', free-run requests one step, anything else fails with an unknown-mode error and leaves the predictor alone; nothing else changes |
| DynamicModels.SetModeLastWins | python-scripts/model/dynamic_model.py:40-48 | a successful mode switch makes any earlier switch irrelevant |
| DynamicModels.NumModelInputs | python-scripts/model/dynamic_model.py:36-38 | the predictor's input width is num_inputs + num_outputs with ar and num_inputs without |
| DynamicModels.OneStepInput | python-scripts/model/dynamic_model.py:50-57 | without ar the input is the delayed u; with ar a missing target fails, the build succeeds exactly when the lengths agree, the input is as long as the delayed u, and step t holds u at t - delay followed by y at t - 1, zero where absent |
| DynamicModels.TeacherForced | python-scripts/model/dynamic_model.py:54-55 | the delayed input is joined with the target delayed by one step; this succeeds exactly when the delayed input is max(length of y, 1) steps long, and step t holds the delayed input followed by y at t - 1, zero at t = 0 |
| DynamicModels.OneStepAhead | python-scripts/model/dynamic_model.py:59-65 | fails exactly when the input cannot be built; otherwise it is one predictor call on the whole input, from the initial hidden state for a stateful predictor |
| DynamicModels.ModelInputWidth | python-scripts/model/dynamic_model.py:36-38 | for inputs of the configured widths, the predictor input in both regimes has num_model_inputs channels: num_inputs + num_outputs with ar, num_inputs without |
| DynamicModels.FreeRunStart | python-scripts/model/dynamic_model.py:78 | the first simulated step is 0 with zero_initial_state and rf otherwise, never beyond rf |
| DynamicModels.NormalizeInput | python-scripts/model/dynamic_model.py:110-111 | u is normalized exactly when an input normalizer is configured |
| DynamicModels.NormalizeTarget | python-scripts/model/dynamic_model.py:112-113 | a present target is normalized when an output normalizer is configured; an absent target stays absent |
| DynamicModels.Denormalize | python-scripts/model/dynamic_model.py:122-123 | a successful prediction is un-normalized when an output normalizer is configured; an error is returned unchanged |
| DynamicModels.FreeRunSimulation | python-scripts/model/dynamic_model.py:67-97 | without ar it equals one-step-ahead prediction; with ar a missing target fails; otherwise the result is exactly the unique rollout over the delayed input from step 0 (zero_initial_state) or rf up to the length of u, and the call fails when there is none |
| DynamicModels.Forward | python-scripts/model/dynamic_model.py:109-124 | normalizes the inputs, then dispatches on the stored mode: one-step-ahead to the teacher-forced path, free-run to the rollout; any other mode fails with an unsupported-mode error; the output is un-normalized and errors pass through |

## Left out

- `python-scripts/model/model_state.py`: seeding, optimizer construction and checkpoint load/save. These are library calls and file I/O with no logic of their own.
- Constructor dispatch on the architecture name (`dynamic_model.py:24-31`) and `CausalConvNet.set_mode('dilation')` (lines 33-34). They only build external classes. `Create` takes the built predictor as a parameter.
- Predictor internals (MLP, TCN, LSTM, `get_requested_input`, `init_hidden`): the predictor is an opaque function and `rf` is a given natural number. So the length of the predictor's output is not constrained. The property "one-step-ahead output has the input's length" depends on the predictor and is not stated.
- Normalizer internals: opaque function pairs. Whether they are exact inverses does not affect the modelled logic.
- The batch axis, device placement, dtype and floating-point numerics. Sample values are reals that are only copied or zero-filled. Broadcasting on the write is modelled along channels only.
- Python lets any value be passed as a mode. The model has one extra case, `Other(name)`, for all of them.
- A stateful predictor is threaded an `Option` state. It always holds a value after `InitHidden`. `Invoke` falls back to the initial state for an absent one, which never happens.
- `Delay.Shift`: when abs(delay) exceeds the length the slice is empty, so the result is max(length, abs(delay)) zero steps rather than the input's shape; the shape is kept only for abs(delay) at most the length (`Delay.ShiftKeepsLength`).
- `DynamicModels.OneStepInput`: the code indexes `y` only when `ar` is set, so without `ar` a missing target is accepted in both modes.
- That each step is written exactly once, in increasing order, is not a separate statement. The loop in `Simulate` does it by construction, and `IsRollout` states the value of every written step.
