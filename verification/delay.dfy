/** The delay shifter (`DynamicModel._get_u_delayed`): moves a signal along
    the time axis by a signed delay and zero-fills the exposed edge. */
module Delay {
  import opened Signals

  /** Positive `d` lags the signal (drop the last `d` steps, pad `d` zeros on
      the left); negative `d` leads it (drop the first `|d|` steps, pad on
      the right); zero returns the signal itself. The sample at time `t` is
      the input at time `t - d`, zero where that time does not exist. When
      `|d|` exceeds the length, Python's slicing yields an empty slice and the
      result is `|d|` zero steps long. */
  function Shift(u: Signal, d: int): (r: Signal)
    ensures r.channels == u.channels
    ensures |r.frames| == if d == 0 then |u.frames| else Max(|u.frames|, Abs(d))
    ensures forall t | 0 <= t < |r.frames| :: r.frames[t] == At(u, t - d)
  {
    if d > 0 then PadTime(TimeSlice(u, 0, -d), d, 0)
    else if d < 0 then PadTime(TimeSlice(u, -d, |u.frames|), 0, -d)
    else u
  }

  /** The shape is kept exactly when the delay is no longer than the signal. */
  lemma ShiftKeepsLength(u: Signal, d: int)
    ensures |Shift(u, d).frames| == |u.frames| <==> Abs(d) <= |u.frames|
  {
  }

  /** A zero delay is the identity. */
  lemma ShiftByZero(u: Signal)
    ensures Shift(u, 0) == u
  {
  }

  /** Shifting by `d` and back by `-d` restores every sample whose shifted
      position stayed inside the signal; the `|d|` samples pushed off the
      edge come back as zeros. */
  lemma ShiftRoundTrip(u: Signal, d: int)
    requires Abs(d) <= |u.frames|
    ensures var back := Shift(Shift(u, d), -d);
            && back.channels == u.channels
            && |back.frames| == |u.frames|
            && forall t | 0 <= t < |u.frames| ::
                 back.frames[t] == if 0 <= t + d < |u.frames| then u.frames[t] else ZeroFrame(u.channels)
  {
    var once := Shift(u, d);
    var back := Shift(once, -d);
    forall t | 0 <= t < |u.frames|
      ensures back.frames[t] == if 0 <= t + d < |u.frames| then u.frames[t] else ZeroFrame(u.channels)
    {
      assert back.frames[t] == At(once, t + d);
    }
  }

  /** A well-shaped signal stays well-shaped under any shift. */
  lemma ShiftWellShaped(u: Signal, d: int)
    requires WellShaped(u)
    ensures WellShaped(Shift(u, d))
  {
  }
}
