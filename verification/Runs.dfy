/** What holds after a run because something happened in it and nothing undid it since. */
module Runs {

  /** Before the n-th step `on` happened, and `off` did not after it. */
  ghost predicate Since(on: nat -> bool, off: nat -> bool, n: nat) {
    exists i: nat :: i < n && on(i) && forall j: nat :: i < j < n ==> !off(j)
  }

  lemma SinceStep(on: nat -> bool, off: nat -> bool, n: nat)
    ensures Since(on, off, n + 1) <==> on(n) || (Since(on, off, n) && !off(n))
  {
    if Since(on, off, n + 1) && !on(n) {
      var i: nat :| i < n + 1 && on(i) && forall j: nat :: i < j < n + 1 ==> !off(j);
      assert i < n;
    }
    if on(n) {
      assert forall j: nat :: n < j < n + 1 ==> !off(j);
    }
    if Since(on, off, n) && !off(n) {
      var i: nat :| i < n && on(i) && forall j: nat :: i < j < n ==> !off(j);
      assert forall j: nat :: i < j < n + 1 ==> !off(j);
    }
  }
}
