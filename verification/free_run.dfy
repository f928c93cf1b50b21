/** The free-run simulation loop (`DynamicModel.free_run_simulation` with
    `ar` set): a scratch copy of the target is overwritten step by step with
    the predictor's own output, which later steps read back as history. */
module FreeRun {
  import opened Results
  import opened Signals
  import opened Predictors
  import opened Windows

  /** Everything one iteration does before the write: build both windows,
      concatenate them channel-wise (input channels first), invoke the
      predictor and take the last time step of its output. Inside the
      buffers the concatenation cannot fail; past the end of the output
      buffer with `rf > 0` the windows have unequal lengths and it does. */
  function StepOutcome<S>(p: Predictor<S>, ud: Signal, b: Signal, i: nat, state: Option<S>): (r: Result<(Frame, Option<S>)>)
    ensures i < |ud.frames| && i <= |b.frames| && r.Err? ==> r.error == IndexOutOfRange
    ensures i < |ud.frames| && |b.frames| < i && 0 < p.rf ==> r == Err(ShapeMismatch)
  {
    var x :- Cat(InputWindow(ud, i, p.rf), OutputWindow(b, i, p.rf));
    var (out, next) := p.Invoke(x, state);
    var last :- LastFrame(out);
    Ok((last, next))
  }

  /** `y_sim[:, :, i] = f`: an index error past the end, a shape error when
      `f` does not broadcast to the buffer's width, and otherwise only step
      `i` changes. */
  function WriteStep(b: Signal, i: nat, f: Frame): (r: Result<Signal>)
    ensures r.Ok? <==> i < |b.frames| && Broadcast(f, b.channels).Ok?
    ensures r.Ok? ==> && r.value.channels == b.channels
                      && |r.value.frames| == |b.frames|
                      && r.value.frames[i] == Broadcast(f, b.channels).value
                      && forall t | 0 <= t < |b.frames| && t != i :: r.value.frames[t] == b.frames[t]
  {
    if i >= |b.frames| then Err(IndexOutOfRange)
    else
      var v :- Broadcast(f, b.channels);
      Ok(Signal(b.channels, b.frames[i := v]))
  }

  /** Writing `f` at `i` leaves `b` as it is exactly when `b` already holds
      the broadcast `f` there. */
  lemma WriteStepFixed(b: Signal, i: nat, f: Frame)
    ensures WriteStep(b, i, f) == Ok(b) <==> i < |b.frames| && Broadcast(f, b.channels) == Ok(b.frames[i])
  {
    if i < |b.frames| && Broadcast(f, b.channels) == Ok(b.frames[i]) {
      assert b.frames[i := b.frames[i]] == b.frames;
    }
  }

  /** Replays steps `start .. t-1` against a FIXED candidate result `r`:
      each step reads its windows from `r` itself and must emit exactly the
      value `r` already holds at that step. Yields the predictor state after
      the replayed steps, or `None` if a step fails or disagrees with `r`. */
  function Replay<S>(p: Predictor<S>, ud: Signal, r: Signal, start: nat, t: nat): Option<Option<S>>
    decreases t
  {
    if t <= start then Some(p.InitHidden())
    else
      var prev := Replay(p, ud, r, start, t - 1);
      if prev.None? then None
      else
        var o := StepOutcome(p, ud, r, t - 1, prev.value);
        if o.Err? || WriteStep(r, t - 1, o.value.0) != Ok(r) then None
        else Some(o.value.1)
  }

  /** The independent description of a free-run result: `r` has the target's
      shape, holds the target's values outside the simulated steps
      `[start, n)`, and is a fixed point of the predictor fed with its own
      history, i.e. at every simulated step the predictor, shown the windows
      of `r` and the state threaded through the earlier steps, emits `r`'s
      sample at that step. */
  ghost predicate IsRollout<S>(p: Predictor<S>, ud: Signal, y: Signal, start: nat, n: nat, r: Signal) {
    && r.channels == y.channels
    && |r.frames| == |y.frames|
    && (forall t | 0 <= t < |y.frames| && !(start <= t < n) :: r.frames[t] == y.frames[t])
    && Replay(p, ud, r, start, n).Some?
  }

  /** A successful replay up to `t` is successful up to any earlier step. */
  lemma {:induction false} ReplayDefinedBelow<S>(p: Predictor<S>, ud: Signal, r: Signal, start: nat, t: nat, k: nat)
    requires k <= t && Replay(p, ud, r, start, t).Some?
    ensures Replay(p, ud, r, start, k).Some?
    decreases t - k
  {
    if k < t && start < t {
      assert Replay(p, ud, r, start, t - 1).Some? by {
        // a failed prefix fails the whole replay
        assert Replay(p, ud, r, start, t - 1).None? ==> Replay(p, ud, r, start, t).None?;
      }
      ReplayDefinedBelow(p, ud, r, start, t - 1, k);
    }
  }

  /** Step `i` of a successful replay: the predictor shown `r`'s windows at
      `i` succeeds, emits `r`'s own sample at `i`, and its new state is the
      replay state one step later. */
  lemma RolloutStep<S>(p: Predictor<S>, ud: Signal, r: Signal, start: nat, n: nat, i: nat)
    requires Replay(p, ud, r, start, n).Some? && start <= i < n
    ensures Replay(p, ud, r, start, i).Some?
    ensures var o := StepOutcome(p, ud, r, i, Replay(p, ud, r, start, i).value);
            && o.Ok?
            && WriteStep(r, i, o.value.0) == Ok(r)
            && Replay(p, ud, r, start, i + 1) == Some(o.value.1)
  {
    ReplayDefinedBelow(p, ud, r, start, n, i + 1);
  }

  /** A rollout that simulates anything covers every simulated step: the
      target must be at least `n` steps long. */
  lemma RolloutCoversSteps<S>(p: Predictor<S>, ud: Signal, y: Signal, start: nat, n: nat, r: Signal)
    requires IsRollout(p, ud, y, start, n, r) && start < n
    ensures n <= |y.frames|
  {
    RolloutStep(p, ud, r, start, n, n - 1);
  }

  /** One step reads only the samples before it. */
  lemma StepCausal<S>(p: Predictor<S>, ud: Signal, a: Signal, b: Signal, i: nat, state: Option<S>)
    requires SamePrefix(a, b, i)
    ensures StepOutcome(p, ud, a, i, state) == StepOutcome(p, ud, b, i, state)
  {
    OutputWindowCausal(a, b, i, p.rf);
  }

  /** Sequential dependency: replaying up to `t` reads only the samples
      before `t`, so what is written at `t` or later cannot influence it. */
  lemma {:induction false} ReplayCausal<S>(p: Predictor<S>, ud: Signal, a: Signal, b: Signal, start: nat, t: nat)
    requires SamePrefix(a, b, t)
    ensures Replay(p, ud, a, start, t) == Replay(p, ud, b, start, t)
    decreases t
  {
    if start < t {
      var i := t - 1;
      ReplayCausal(p, ud, a, b, start, i);
      var prev := Replay(p, ud, a, start, i);
      if prev.Some? {
        StepCausal(p, ud, a, b, i, prev.value);
        var o := StepOutcome(p, ud, a, i, prev.value);
        if o.Ok? {
          WriteStepFixed(a, i, o.value.0);
          WriteStepFixed(b, i, o.value.0);
          assert (WriteStep(a, i, o.value.0) == Ok(a)) == (WriteStep(b, i, o.value.0) == Ok(b));
        }
      }
    }
  }

  /** After writing step `i` of a consistent buffer, the buffer is consistent
      one step further and the state is the one the predictor returned. */
  lemma ReplayExtend<S>(p: Predictor<S>, ud: Signal, b: Signal, b': Signal, start: nat, i: nat,
                        state: Option<S>, f: Frame, next: Option<S>)
    requires start <= i
    requires Replay(p, ud, b, start, i) == Some(state)
    requires StepOutcome(p, ud, b, i, state) == Ok((f, next))
    requires WriteStep(b, i, f) == Ok(b')
    ensures Replay(p, ud, b', start, i + 1) == Some(next)
  {
    assert SamePrefix(b', b, i);
    ReplayCausal(p, ud, b', b, start, i);
    StepCausal(p, ud, b', b, i, state);
    WriteStepFixed(b', i, f);
  }

  /** If a rollout `s` exists and the buffer agrees with it before `i`, then
      step `i` on the buffer succeeds and writes exactly `s`'s sample, so the
      written buffer agrees with `s` one step further. */
  lemma RolloutForcesStep<S>(p: Predictor<S>, ud: Signal, y: Signal, start: nat, n: nat,
                             b: Signal, i: nat, state: Option<S>)
    requires start <= i < n
    requires b.channels == y.channels && |b.frames| == |y.frames|
    requires Replay(p, ud, b, start, i) == Some(state)
    requires forall s | IsRollout(p, ud, y, start, n, s) :: SamePrefix(s, b, i)
    ensures forall s | IsRollout(p, ud, y, start, n, s) ::
              && StepOutcome(p, ud, b, i, state).Ok?
              && WriteStep(b, i, StepOutcome(p, ud, b, i, state).value.0).Ok?
              && SamePrefix(s, WriteStep(b, i, StepOutcome(p, ud, b, i, state).value.0).value, i + 1)
  {
    forall s | IsRollout(p, ud, y, start, n, s)
      ensures && StepOutcome(p, ud, b, i, state).Ok?
              && WriteStep(b, i, StepOutcome(p, ud, b, i, state).value.0).Ok?
              && SamePrefix(s, WriteStep(b, i, StepOutcome(p, ud, b, i, state).value.0).value, i + 1)
    {
      RolloutStep(p, ud, s, start, n, i);
      ReplayCausal(p, ud, s, b, start, i);
      StepCausal(p, ud, s, b, i, state);
      var f := StepOutcome(p, ud, s, i, state).value.0;
      WriteStepFixed(s, i, f);
      var b' := WriteStep(b, i, f).value;
      assert b'.frames[i] == s.frames[i];
    }
  }

  /** The loop invariant of `Simulate` at step `i`: the buffer has the
      target's shape, still holds the target outside the steps written so
      far, replays consistently up to `i` with the current state, and agrees
      before `i` with every rollout there is. */
  ghost predicate SimulationInvariant<S>(p: Predictor<S>, ud: Signal, y: Signal, start: nat, n: nat,
                                         b: Signal, i: nat, state: Option<S>) {
    && start <= i && (i == start || i <= n)
    && b.channels == y.channels && |b.frames| == |y.frames|
    && (forall t | 0 <= t < |y.frames| && !(start <= t < i) :: b.frames[t] == y.frames[t])
    && Replay(p, ud, b, start, i) == Some(state)
    && (start < n ==> forall s | IsRollout(p, ud, y, start, n, s) :: SamePrefix(s, b, i))
  }

  lemma SimulationStarts<S>(p: Predictor<S>, ud: Signal, y: Signal, start: nat, n: nat)
    ensures SimulationInvariant(p, ud, y, start, n, y, start, p.InitHidden())
  {
    if start < n {
      forall s | IsRollout(p, ud, y, start, n, s)
        ensures SamePrefix(s, y, start)
      {
        RolloutCoversSteps(p, ud, y, start, n, s);
      }
    }
  }

  lemma SimulationSteps<S>(p: Predictor<S>, ud: Signal, y: Signal, start: nat, n: nat,
                           b: Signal, i: nat, state: Option<S>, f: Frame, next: Option<S>, b': Signal)
    requires SimulationInvariant(p, ud, y, start, n, b, i, state) && i < n
    requires StepOutcome(p, ud, b, i, state) == Ok((f, next))
    requires WriteStep(b, i, f) == Ok(b')
    ensures SimulationInvariant(p, ud, y, start, n, b', i + 1, next)
  {
    RolloutForcesStep(p, ud, y, start, n, b, i, state);
    ReplayExtend(p, ud, b, b', start, i, state, f, next);
  }

  /** Where a step fails, no rollout exists. */
  lemma SimulationFails<S>(p: Predictor<S>, ud: Signal, y: Signal, start: nat, n: nat,
                           b: Signal, i: nat, state: Option<S>)
    requires SimulationInvariant(p, ud, y, start, n, b, i, state) && i < n
    requires StepOutcome(p, ud, b, i, state).Err?
          || WriteStep(b, i, StepOutcome(p, ud, b, i, state).value.0).Err?
    ensures forall s :: !IsRollout(p, ud, y, start, n, s)
  {
    RolloutForcesStep(p, ud, y, start, n, b, i, state);
  }

  lemma SimulationEnds<S>(p: Predictor<S>, ud: Signal, y: Signal, start: nat, n: nat,
                          b: Signal, i: nat, state: Option<S>)
    requires SimulationInvariant(p, ud, y, start, n, b, i, state) && n <= i
    ensures IsRollout(p, ud, y, start, n, b)
    ensures forall s | IsRollout(p, ud, y, start, n, s) :: s == b
  {
    forall s | IsRollout(p, ud, y, start, n, s)
      ensures s == b
    {
      assert s.frames == b.frames;
    }
  }

  /** The loop of `free_run_simulation`: `y_sim` starts as a copy of `y` and
      steps `start .. n-1` are overwritten in increasing order, each with the
      last output step of the predictor fed the current windows. The result
      is a rollout in the sense of `IsRollout`, and any rollout is the
      result; so the loop fails exactly when no rollout exists, in
      particular whenever it would have to write past the end of `y`. */
  method Simulate<S>(p: Predictor<S>, ud: Signal, y: Signal, start: nat, n: nat) returns (r: Result<Signal>)
    ensures r.Ok? ==> IsRollout(p, ud, y, start, n, r.value)
    ensures forall s | IsRollout(p, ud, y, start, n, s) :: r == Ok(s)
    ensures start < n && |y.frames| < n ==> r.Err?
  {
    var ySim := y;
    var state := p.InitHidden();
    var i := start;
    SimulationStarts(p, ud, y, start, n);
    while i < n
      invariant SimulationInvariant(p, ud, y, start, n, ySim, i, state)
      decreases n - i
    {
      var step := StepOutcome(p, ud, ySim, i, state);
      if step.Err? {
        SimulationFails(p, ud, y, start, n, ySim, i, state);
        return Err(step.error);
      }
      var (f, next) := step.value;
      var written := WriteStep(ySim, i, f);
      if written.Err? {
        SimulationFails(p, ud, y, start, n, ySim, i, state);
        return Err(written.error);
      }
      SimulationSteps(p, ud, y, start, n, ySim, i, state, f, next, written.value);
      ySim, state, i := written.value, next, i + 1;
    }
    SimulationEnds(p, ud, y, start, n, ySim, i, state);
    if start < n && |y.frames| < n {
      RolloutCoversSteps(p, ud, y, start, n, ySim);
    }
    r := Ok(ySim);
  }

  /** There is at most one rollout: the predictor's own history fixes every
      simulated step in turn. */
  lemma RolloutUnique<S>(p: Predictor<S>, ud: Signal, y: Signal, start: nat, n: nat, a: Signal, b: Signal)
    requires IsRollout(p, ud, y, start, n, a) && IsRollout(p, ud, y, start, n, b)
    ensures a == b
  {
    if start < n {
      RolloutCoversSteps(p, ud, y, start, n, a);
      RolloutPrefixesAgree(p, ud, y, start, n, a, b, n);
    }
    assert a.frames == b.frames;
  }

  lemma {:induction false} RolloutPrefixesAgree<S>(p: Predictor<S>, ud: Signal, y: Signal, start: nat, n: nat,
                                                  a: Signal, b: Signal, k: nat)
    requires IsRollout(p, ud, y, start, n, a) && IsRollout(p, ud, y, start, n, b)
    requires start <= k <= n <= |y.frames|
    ensures SamePrefix(a, b, k)
    decreases k
  {
    if start < k {
      var i := k - 1;
      RolloutPrefixesAgree(p, ud, y, start, n, a, b, i);
      RolloutStep(p, ud, a, start, n, i);
      RolloutStep(p, ud, b, start, n, i);
      ReplayCausal(p, ud, a, b, start, i);
      var state := Replay(p, ud, a, start, i).value;
      StepCausal(p, ud, a, b, i, state);
      var f := StepOutcome(p, ud, a, i, state).value.0;
      WriteStepFixed(a, i, f);
      WriteStepFixed(b, i, f);
    }
  }
}
