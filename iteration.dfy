/** Repeated application of a loop body, shared by the colourisers' proofs. */
module Iteration {
  /** f applied n times. */
  ghost function Iterate<T>(f: T -> T, s: T, n: nat): T
    decreases n
  {
    if n == 0 then s else Iterate(f, f(s), n - 1)
  }

  /** n + 1 applications are n applications and one more. */
  lemma {:induction false} IterateLast<T>(f: T -> T, s: T, n: nat)
    ensures Iterate(f, s, n + 1) == f(Iterate(f, s, n))
    decreases n
  {
    if n > 0 {
      IterateLast(f, f(s), n - 1);
    }
  }

  /** The prefix order on sequences is transitive. */
  lemma PrefixTrans<T>(a: seq<T>, b: seq<T>, c: seq<T>)
    requires a <= b && b <= c
    ensures a <= c
  {
    assert c[..|a|] == b[..|a|];
  }
}
