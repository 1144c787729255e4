/** Loops as repeated steps: what holds of them whatever the step is. */
module Iteration {
  import opened Wrappers

  datatype Progress<+S, +R> = Continue(next: S) | Done(outcome: R)

  /** The state after `n` steps; None if the loop has ended before. */
  ghost function Iterate<S, R>(step: S -> Progress<S, R>, s: S, n: nat): Option<S> {
    if n == 0 then Some(s)
    else
      match Iterate(step, s, n - 1)
      case None => None
      case Some(t) => if step(t).Continue? then Some(step(t).next) else None
  }

  /** A run that has ended does not go on. */
  lemma {:induction false} NoneStays<S, R>(step: S -> Progress<S, R>, s: S, m: nat, n: nat)
    requires m <= n && Iterate(step, s, m) == None
    ensures Iterate(step, s, n) == None
  {
    if m < n {
      NoneStays(step, s, m, n - 1);
    }
  }

  /** A run ends in one place only. */
  lemma EndsOnce<S, R>(step: S -> Progress<S, R>, s: S, m: nat, n: nat)
    requires Iterate(step, s, m).Some? && step(Iterate(step, s, m).value).Done?
    requires Iterate(step, s, n).Some? && step(Iterate(step, s, n).value).Done?
    ensures m == n
  {
    NothingAfterEnd(step, s, m, n);
    NothingAfterEnd(step, s, n, m);
  }

  lemma NothingAfterEnd<S, R>(step: S -> Progress<S, R>, s: S, m: nat, n: nat)
    requires Iterate(step, s, m).Some? && step(Iterate(step, s, m).value).Done? && Iterate(step, s, n).Some?
    ensures n <= m
  {
    if m < n {
      NoneStays(step, s, m + 1, n);
    }
  }

  /** Steps in a row. */
  lemma ThreeSteps<S, R>(step: S -> Progress<S, R>, a: S, b: S, c: S, d: S)
    requires step(a) == Continue(b) && step(b) == Continue(c) && step(c) == Continue(d)
    ensures Iterate(step, a, 3) == Some(d)
  {
    assert Iterate(step, a, 1) == Some(b);
    assert Iterate(step, a, 2) == Some(c);
  }

  lemma FourSteps<S, R>(step: S -> Progress<S, R>, a: S, b: S, c: S, d: S, e: S)
    requires step(a) == Continue(b) && step(b) == Continue(c) && step(c) == Continue(d) && step(d) == Continue(e)
    ensures Iterate(step, a, 4) == Some(e)
  {
    ThreeSteps(step, a, b, c, d);
  }
}
