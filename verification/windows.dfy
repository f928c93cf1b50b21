/** The history windows of one free-run step (`free_run_simulation`, the
    branch on `i < rf`): the last `rf` output samples before step `i` and the
    last `rf` delayed-input samples up to and including step `i`, both
    left-padded with zeros near the start of the sequence. */
module Windows {
  import opened Signals

  /** `y_sim[:, :, i-rf:i]`, or `y_sim[:, :, :i]` padded with `rf-i` zero
      steps when `i < rf`. While `i` is within the buffer the window holds
      exactly the `rf` samples before `i`, reading zeros before time 0; past
      the buffer it comes out short. */
  function OutputWindow(b: Signal, i: nat, rf: nat): (w: Signal)
    ensures w.channels == b.channels
    ensures i <= |b.frames| ==> |w.frames| == rf
    ensures i <= |b.frames| ==> forall k | 0 <= k < rf :: w.frames[k] == At(b, i - rf + k)
    ensures |b.frames| < i && 0 < rf ==> |w.frames| < rf
  {
    if i < rf then PadTime(TimeSlice(b, 0, i), rf - i, 0)
    else TimeSlice(b, i - rf, i)
  }

  /** `u_delayed[:, :, i-rf+1:i+1]`, or `u_delayed[:, :, :i+1]` padded with
      `rf-i-1` zero steps when `i < rf`: the `rf` samples ending at step `i`
      inclusive, reading zeros before time 0. */
  function InputWindow(ud: Signal, i: nat, rf: nat): (w: Signal)
    ensures w.channels == ud.channels
    ensures i < |ud.frames| ==> |w.frames| == rf
    ensures i < |ud.frames| ==> forall k | 0 <= k < rf :: w.frames[k] == At(ud, i - rf + 1 + k)
  {
    if i < rf then PadTime(TimeSlice(ud, 0, i + 1), rf - i - 1, 0)
    else TimeSlice(ud, i - rf + 1, i + 1)
  }

  /** Near the start (`i < rf`) the output window is `rf - i` zero steps
      followed by the whole history `b[0..i)`; the current step is never read. */
  lemma OutputWindowWarmUp(b: Signal, i: nat, rf: nat)
    requires i < rf && i <= |b.frames|
    ensures var w := OutputWindow(b, i, rf);
            && (forall k | 0 <= k < rf - i :: w.frames[k] == ZeroFrame(b.channels))
            && w.frames[rf - i..] == b.frames[..i]
  {
    var tail := OutputWindow(b, i, rf).frames[rf - i..];
    assert forall k | 0 <= k < i :: tail[k] == At(b, k);
  }

  /** Near the start the input window is `rf - i - 1` zero steps followed by
      the delayed inputs `ud[0..i]`, the current step included. */
  lemma InputWindowWarmUp(ud: Signal, i: nat, rf: nat)
    requires i < rf && i < |ud.frames|
    ensures var w := InputWindow(ud, i, rf);
            && (forall k | 0 <= k < rf - i - 1 :: w.frames[k] == ZeroFrame(ud.channels))
            && w.frames[rf - i - 1..] == ud.frames[..i + 1]
  {
    var tail := InputWindow(ud, i, rf).frames[rf - i - 1..];
    assert forall k | 0 <= k < i + 1 :: tail[k] == At(ud, k);
  }

  /** `a` and `b` have the same width and agree on their first `t` steps. */
  ghost predicate SamePrefix(a: Signal, b: Signal, t: nat) {
    && a.channels == b.channels
    && t <= |a.frames| && t <= |b.frames|
    && forall k | 0 <= k < t :: a.frames[k] == b.frames[k]
  }

  /** Causality of the output window: the window at step `i` depends only on
      the samples before `i`, so a value written at `i` or later is not seen. */
  lemma OutputWindowCausal(a: Signal, b: Signal, i: nat, rf: nat)
    requires SamePrefix(a, b, i)
    ensures OutputWindow(a, i, rf) == OutputWindow(b, i, rf)
  {
    var wa, wb := OutputWindow(a, i, rf), OutputWindow(b, i, rf);
    forall k | 0 <= k < rf
      ensures wa.frames[k] == wb.frames[k]
    {
      assert wa.frames[k] == At(a, i - rf + k);
    }
    assert wa.frames == wb.frames;
  }
}
