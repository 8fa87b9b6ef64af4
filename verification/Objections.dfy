/** Checks made one after another, of which the first that fails gives the verdict. */
module Objections {
  /** A check that failed or not, and what it would be reported as. */
  datatype Check<T> = Check(failed: bool, report: T)

  /** The verdict is the report of the first failed check, or the good one when none has failed. */
  predicate Verdict<T(==)>(checks: seq<Check<T>>, good: T, verdict: T) {
    if forall i :: 0 <= i < |checks| ==> !checks[i].failed then verdict == good
    else exists k :: 0 <= k < |checks| && FailsFirst(checks, k) && verdict == checks[k].report
  }

  predicate FailsFirst<T>(checks: seq<Check<T>>, k: nat)
    requires k < |checks|
  {
    checks[k].failed && forall i :: 0 <= i < k ==> !checks[i].failed
  }

  /** The place of the first failed check gives the verdict. */
  lemma FirstGives<T>(checks: seq<Check<T>>, good: T, verdict: T, k: nat)
    requires k <= |checks| && forall i :: 0 <= i < k ==> !checks[i].failed
    requires if k == |checks| then verdict == good else checks[k].failed && verdict == checks[k].report
    ensures Verdict(checks, good, verdict)
  {
    if k < |checks| { assert FailsFirst(checks, k); }
  }
}
