/** Runs of a protocol: a finite schedule of actions, each applied by a total step function. */
module Runs {

  /** The state after the schedule `acts`, started in `s`. */
  function Exec<S, A>(step: (S, A) -> S, s: S, acts: seq<A>): S
  {
    if acts == [] then s
    else step(Exec(step, s, acts[..|acts| - 1]), acts[|acts| - 1])
  }

  /** What holds at the start and is kept by every step holds after every schedule. */
  lemma {:induction false} Invariance<S(!new), A(!new)>(step: (S, A) -> S, inv: S -> bool, s: S, acts: seq<A>)
    requires inv(s)
    requires forall x, a :: inv(x) ==> inv(step(x, a))
    ensures inv(Exec(step, s, acts))
  {
    if acts != [] {
      Invariance(step, inv, s, acts[..|acts| - 1]);
    }
  }

  /** Running a schedule in two parts. */
  lemma {:induction false} Concat<S, A>(step: (S, A) -> S, s: S, first: seq<A>, second: seq<A>)
    ensures Exec(step, s, first + second) == Exec(step, Exec(step, s, first), second)
  {
    if second == [] {
      assert first + second == first;
    } else {
      var n := |second| - 1;
      assert (first + second)[..|first + second| - 1] == first + second[..n];
      Concat(step, s, first, second[..n]);
    }
  }
}
