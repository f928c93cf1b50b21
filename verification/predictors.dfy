/** The sequence predictor as the dynamic model sees it: an opaque function
    of its input signal (and, for the stateful variant, of a hidden state),
    configured by a requested-output setting, with a receptive field. */
module Predictors {
  import opened Results
  import opened Signals

  /** The predictor's requested-output setting: as long as the input
      (`'same'`) or a fixed number of steps (`1` in free-run simulation). */
  datatype RequestedOutput = Same | Steps(count: nat)

  /** `rf` is the predictor's `get_requested_input(requested_output=1)`: how
      many trailing time steps it needs to produce one output step. The
      invocation functions receive the current requested-output setting,
      since `set_requested_output` reconfigures the predictor. */
  datatype Predictor<!S> =
    | Stateless(requested: RequestedOutput, rf: nat,
                apply: (RequestedOutput, Signal) -> Signal)
    | Stateful(requested: RequestedOutput, rf: nat, initHidden: S,
               step: (RequestedOutput, Signal, S) -> (Signal, S))
  {
    predicate HasInternalState() {
      Stateful?
    }

    /** The state a call starts from: fresh per call for a stateful
        predictor, absent for a stateless one. */
    function InitHidden(): Option<S> {
      match this
      case Stateless(_, _, _) => None
      case Stateful(_, _, h, _) => Some(h)
    }

    /** One invocation. A stateless predictor passes the state through
        untouched; a stateful one consumes and re-produces it (it is only
        ever given the state `InitHidden` made or one it returned). */
    function Invoke(x: Signal, state: Option<S>): (r: (Signal, Option<S>))
      ensures Stateless? ==> r.1 == state
      ensures Stateful? ==> r.1.Some?
    {
      match this
      case Stateless(req, _, f) => (f(req, x), state)
      case Stateful(req, _, h, g) =>
        var (y, next) := g(req, x, if state.Some? then state.value else h);
        (y, Some(next))
    }

    /** `set_requested_output`: only the setting changes. */
    function SetRequestedOutput(req: RequestedOutput): (p: Predictor<S>)
      ensures p.requested == req
      ensures p.rf == rf && p.Stateful? == Stateful?
      ensures p.InitHidden() == InitHidden()
    {
      this.(requested := req)
    }
  }
}
