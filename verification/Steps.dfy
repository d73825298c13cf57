/** Repeating a numbered step, and what every such repetition keeps. */
module Steps {

  /** The state after the steps 0, ..., n - 1. */
  function Repeat<S>(step: (S, nat) -> S, s: S, n: nat): S {
    if n == 0 then s else step(Repeat(step, s, n - 1), n - 1)
  }

  /** What each step carries from its number to the next holds after n steps. */
  lemma {:induction false} RepeatReaches<S>(p: (S, nat) -> bool, step: (S, nat) -> S, s: S, n: nat)
    requires p(s, 0)
    requires forall x, i: nat | i < n && p(x, i) :: p(step(x, i), i + 1)
    ensures p(Repeat(step, s, n), n)
  {
    if n > 0 { RepeatReaches(p, step, s, n - 1); }
  }

  lemma {:induction false} RepeatKeeps<S>(p: S -> bool, step: (S, nat) -> S, s: S, m: nat, n: nat)
    requires m <= n && p(Repeat(step, s, m))
    requires forall x, i: nat | m <= i < n && p(x) :: p(step(x, i))
    ensures p(Repeat(step, s, n))
  {
    if m < n { RepeatKeeps(p, step, s, m, n - 1); }
  }
}
