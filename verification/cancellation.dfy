/** A cancellation token as the scan loop sees it: a flag sampled at fixed
    check points. Once signalled it stays signalled. */
module Cancellation {

  /** `Never` is never signalled. `After(n)` is seen clear at the next `n`
      check points and signalled at every later one; `After(0)` is signalled
      now. */
  datatype Token = Never | After(checks: nat)

  /** `IsCancellationRequested` at the current check point. */
  predicate IsCancellationRequested(t: Token) {
    t.After? && t.checks == 0
  }

  /** The token once one more check point has passed. */
  function Pass(t: Token): (r: Token)
    ensures IsCancellationRequested(t) ==> IsCancellationRequested(r)
    ensures t.Never? <==> r.Never?
    ensures t.After? && t.checks > 0 ==> r.After? && r.checks == t.checks - 1
  {
    match t
    case Never => Never
    case After(n) => if n == 0 then t else After(n - 1)
  }

  /** The token after `k` check points. */
  function PassMany(t: Token, k: nat): Token
    decreases k
  {
    if k == 0 then t else PassMany(Pass(t), k - 1)
  }

  /** Cancellation is monotone: once requested, it is requested at every
      later check point. */
  lemma {:induction false} RequestedStaysRequested(t: Token, k: nat)
    requires IsCancellationRequested(t)
    ensures IsCancellationRequested(PassMany(t, k))
    decreases k
  {
    if k > 0 {
      RequestedStaysRequested(Pass(t), k - 1);
    }
  }
}
