/** Signals: the tensors of the source with the batch axis dropped.

    A signal is stored time-major: `frames[t]` is the sample at time step `t`,
    one real per channel. The channel count is kept separately so that a
    signal with no time steps still knows its width, as a tensor does. */
module Signals {
  import opened Results

  type Frame = seq<real>

  datatype Signal = Signal(channels: nat, frames: seq<Frame>)

  function Max(a: int, b: int): int {
    if a < b then b else a
  }

  function Abs(a: int): nat {
    if a < 0 then -a else a
  }

  /** Every frame has one entry per channel (a rectangular tensor). */
  ghost predicate WellShaped(s: Signal) {
    forall t | 0 <= t < |s.frames| :: |s.frames[t]| == s.channels
  }

  function ZeroFrame(channels: nat): (f: Frame)
    ensures |f| == channels
    ensures forall c | 0 <= c < channels :: f[c] == 0.0
  {
    seq(channels, _ => 0.0)
  }

  function ZeroFrames(count: nat, channels: nat): (z: seq<Frame>)
    ensures |z| == count
    ensures forall t | 0 <= t < count :: z[t] == ZeroFrame(channels)
  {
    seq(count, _ => ZeroFrame(channels))
  }

  /** The sample at any integer time: the stored frame inside the signal and
      the zero frame before time 0 or past the end (causal zero padding). */
  function At(s: Signal, t: int): Frame {
    if 0 <= t < |s.frames| then s.frames[t] else ZeroFrame(s.channels)
  }

  /** How Python resolves a slice bound `k` against a length `n`: a negative
      bound counts from the end, and the result is clamped into `[0, n]`. */
  function ClampBound(k: int, n: nat): (r: nat)
    ensures r <= n
    ensures 0 <= k <= n ==> r == k
    ensures k < 0 && 0 <= n + k ==> r == n + k
  {
    if k < 0 then (if n + k < 0 then 0 else n + k)
    else if k > n then n
    else k
  }

  /** Python's `s[lo:hi]`: never fails, empty when the bounds cross. */
  function Slice<T>(s: seq<T>, lo: int, hi: int): (r: seq<T>)
    ensures var a, b := ClampBound(lo, |s|), ClampBound(hi, |s|);
            && |r| == (if a <= b then b - a else 0)
            && forall k | 0 <= k < |r| :: r[k] == s[a + k]
  {
    var a, b := ClampBound(lo, |s|), ClampBound(hi, |s|);
    if a <= b then s[a..b] else []
  }

  /** `x[:, :, lo:hi]`. */
  function TimeSlice(x: Signal, lo: int, hi: int): Signal {
    Signal(x.channels, Slice(x.frames, lo, hi))
  }

  /** `F.pad(x, [left, right])` on the time axis with non-negative pads. */
  function PadTime(x: Signal, left: nat, right: nat): (r: Signal)
    ensures r.channels == x.channels
    ensures |r.frames| == left + |x.frames| + right
    ensures forall t | 0 <= t < |r.frames| :: r.frames[t] == At(x, t - left)
  {
    Signal(x.channels, ZeroFrames(left, x.channels) + x.frames + ZeroFrames(right, x.channels))
  }

  /** `torch.cat((a, b), 1)`: channel-wise concatenation, which fails unless
      both signals have the same number of time steps. */
  function Cat(a: Signal, b: Signal): (r: Result<Signal>)
    ensures r.Ok? <==> |a.frames| == |b.frames|
    ensures r.Err? ==> r.error == ShapeMismatch
    ensures r.Ok? ==> && r.value.channels == a.channels + b.channels
                      && |r.value.frames| == |a.frames|
                      && forall t | 0 <= t < |a.frames| :: r.value.frames[t] == a.frames[t] + b.frames[t]
  {
    if |a.frames| != |b.frames| then Err(ShapeMismatch)
    else Ok(Signal(a.channels + b.channels, seq(|a.frames|, t requires 0 <= t < |a.frames| => a.frames[t] + b.frames[t])))
  }

  /** Splitting a concatenation at the first operand's width recovers both
      operands, time step by time step. */
  lemma CatSplits(a: Signal, b: Signal)
    requires WellShaped(a) && WellShaped(b) && |a.frames| == |b.frames|
    ensures Cat(a, b).Ok?
    ensures var x := Cat(a, b).value;
            && x.channels == a.channels + b.channels
            && |x.frames| == |a.frames|
            && WellShaped(x)
            && forall t | 0 <= t < |x.frames| ::
                 x.frames[t][..a.channels] == a.frames[t] && x.frames[t][a.channels..] == b.frames[t]
  {
  }

  /** `y[:, :, -1]`: the last time step, an index error when there is none. */
  function LastFrame(y: Signal): (r: Result<Frame>)
    ensures r.Ok? <==> |y.frames| > 0
    ensures r.Ok? ==> r.value == y.frames[|y.frames| - 1]
    ensures r.Err? ==> r.error == IndexOutOfRange
  {
    if |y.frames| == 0 then Err(IndexOutOfRange) else Ok(y.frames[|y.frames| - 1])
  }

  /** Broadcasting a frame into a slot of `channels` entries, as an indexed
      tensor assignment does: equal widths copy, width 1 is repeated, anything
      else is a shape error. */
  function Broadcast(f: Frame, channels: nat): (r: Result<Frame>)
    ensures r.Ok? <==> |f| == channels || |f| == 1
    ensures r.Ok? ==> |r.value| == channels
    ensures r.Ok? && |f| == channels ==> r.value == f
    ensures r.Ok? ==> forall c | 0 <= c < channels :: r.value[c] == f[if |f| == channels then c else 0]
  {
    if |f| == channels then Ok(f)
    else if |f| == 1 then Ok(seq(channels, _ => f[0]))
    else Err(ShapeMismatch)
  }
}
