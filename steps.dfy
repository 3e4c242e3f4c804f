/**
 * Both ends of the protocol run a fixed chain of steps and give up at the first
 * step that fails (Go's `if err != nil { return ... }` after every call).
 * `Run` is that discipline, stated once for any chain of steps.
 */
module Steps {

  /** The steps of `plan` that actually execute: every step up to and including the
      first one that fails, or all of them when none fails. */
  function Run<E>(plan: seq<E>, failed: E -> bool): (r: seq<E>)
    ensures r <= plan
    ensures forall i :: 0 <= i < |r| - 1 ==> !failed(r[i])
    ensures |r| < |plan| ==> r != [] && failed(r[|r| - 1])
  {
    if plan == [] then []
    else if failed(plan[0]) then [plan[0]]
    else [plan[0]] + Run(plan[1..], failed)
  }

  /** When step `k` is the first failing step, exactly the steps `0..k` run. */
  lemma RunStopsAt<E>(plan: seq<E>, failed: E -> bool, k: nat)
    requires k < |plan| && failed(plan[k])
    requires forall i :: 0 <= i < k ==> !failed(plan[i])
    ensures Run(plan, failed) == plan[..k + 1]
  {
  }

  /** When no step fails, the whole plan runs. */
  lemma RunAll<E>(plan: seq<E>, failed: E -> bool)
    requires forall i :: 0 <= i < |plan| ==> !failed(plan[i])
    ensures Run(plan, failed) == plan
  {
  }

  /** How many times `e` occurs in `steps`. */
  function Occurrences<E(==)>(steps: seq<E>, e: E): nat
  {
    if steps == [] then 0
    else (if steps[0] == e then 1 else 0) + Occurrences(steps[1..], e)
  }

  /** Counting occurrences distributes over concatenation. */
  lemma {:induction false} OccurrencesAppend<E>(a: seq<E>, b: seq<E>, e: E)
    ensures Occurrences(a + b, e) == Occurrences(a, e) + Occurrences(b, e)
  {
    if a == [] {
      assert a + b == b;
    } else {
      assert (a + b)[0] == a[0];
      assert (a + b)[1..] == a[1..] + b;
      OccurrencesAppend(a[1..], b, e);
    }
  }

  /** A value that does not occur is counted zero times. */
  lemma {:induction false} OccurrencesAbsent<E>(s: seq<E>, e: E)
    requires e !in s
    ensures Occurrences(s, e) == 0
  {
    if s != [] {
      OccurrencesAbsent(s[1..], e);
    }
  }
}
