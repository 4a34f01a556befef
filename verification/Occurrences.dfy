/** Schedule occurrences on a time line of nanoseconds, and what a next-run function promises. */
module Occurrences {
  import opened Domain

  /** n is the least occurrence strictly after t. */
  ghost predicate LeastAfter(occurs: iset<int>, t: int, n: int) {
    n in occurs && t < n && forall u :: t < u < n ==> u !in occurs
  }

  /** The contract of NextRun for an automatic schedule, met by nextMonthly and demanded of the cron library. */
  ghost predicate NextOf(occurs: iset<int>, next: int -> Option<int>) {
    forall t ::
      match next(t)
      case Some(n) => LeastAfter(occurs, t, n)
      case None => forall u :: t < u ==> u !in occurs
  }

  /** A next-run function that may also answer with an instant that is not after its argument. */
  ghost predicate LooseNextOf(occurs: iset<int>, next: int -> Option<int>) {
    forall t ::
      match next(t)
      case Some(n) => t < n ==> LeastAfter(occurs, t, n)
      case None => forall u :: t < u ==> u !in occurs
  }

  ghost predicate Forward(next: int -> Option<int>) {
    forall t :: next(t).Some? ==> t < next(t).value
  }

  /** Some occurrence lies in (after, upTo]. */
  ghost predicate OccursIn(occurs: iset<int>, after: int, upTo: int) {
    exists u :: after < u <= upTo && u in occurs
  }

  /** How many occurrences lie in (after, upTo]. */
  ghost function Count(occurs: iset<int>, after: int, upTo: int): nat
    decreases upTo - after
  {
    if upTo <= after then 0
    else Count(occurs, after, upTo - 1) + (if upTo in occurs then 1 else 0)
  }

  /** Asking the next-run function is asking whether an occurrence has passed. */
  lemma DueIffOccurs(occurs: iset<int>, next: int -> Option<int>, after: int, now: int)
    requires NextOf(occurs, next)
    ensures next(after).Some? && next(after).value <= now <==> OccursIn(occurs, after, now)
  {
  }

  lemma {:induction false} CountSplits(occurs: iset<int>, a: int, b: int, c: int)
    requires a <= b <= c
    ensures Count(occurs, a, c) == Count(occurs, a, b) + Count(occurs, b, c)
    decreases c - b
  {
    if b < c {
      CountSplits(occurs, a, b, c - 1);
    }
  }

  lemma {:induction false} CountZero(occurs: iset<int>, a: int, b: int)
    ensures Count(occurs, a, b) == 0 <==> !OccursIn(occurs, a, b)
    decreases b - a
  {
    if a < b {
      CountZero(occurs, a, b - 1);
      if b in occurs {
        assert OccursIn(occurs, a, b);
      } else {
        assert OccursIn(occurs, a, b) ==> OccursIn(occurs, a, b - 1);
        assert OccursIn(occurs, a, b - 1) ==> OccursIn(occurs, a, b);
      }
    }
  }

  /** The least occurrence after a accounts for exactly one of those counted from a. */
  lemma CountFromLeast(occurs: iset<int>, a: int, n: int, b: int)
    requires LeastAfter(occurs, a, n) && n <= b
    ensures Count(occurs, a, b) == 1 + Count(occurs, n, b)
  {
    CountSplits(occurs, a, n, b);
    CountZero(occurs, a, n - 1);
  }
}
