/**
 * The comparison helpers of assertions.h (EQ, Not, LT, LE, GT, GE, Zero),
 * over C int values. Each C comparison or `!` yields the int 1 or 0.
 * These compare values directly: on pointers (strings, for instance) they
 * compare addresses, not contents; only integers are modelled here.
 */
module Compare {

  /** A C truth value: 1 when b holds, 0 otherwise. */
  function Truth(b: bool): (r: int)
    ensures r == 0 || r == 1
  {
    if b then 1 else 0
  }

  /** EQ(Actual, Ref): ((Actual) == (Ref)). */
  function EQ(actual: int, ref: int): (r: int)
    ensures r == 0 || r == 1
    ensures r == 1 <==> actual == ref
  {
    Truth(actual == ref)
  }

  /** Not(Condition): !(Condition), succeeding exactly when the condition is zero. */
  function Not(condition: int): (r: int)
    ensures r == 0 || r == 1
    ensures r == 1 <==> condition == 0
  {
    Truth(condition == 0)
  }

  /** LT(Actual, Ref): ((Actual) < (Ref)). */
  function LT(actual: int, ref: int): (r: int)
    ensures r == 0 || r == 1
    ensures r == 1 <==> actual < ref
  {
    Truth(actual < ref)
  }

  /** LE(Actual, Ref): ((Actual) <= (Ref)). */
  function LE(actual: int, ref: int): (r: int)
    ensures r == 0 || r == 1
    ensures r == 1 <==> actual <= ref
  {
    Truth(actual <= ref)
  }

  /** GT(Actual, Ref): ((Actual) > (Ref)). */
  function GT(actual: int, ref: int): (r: int)
    ensures r == 0 || r == 1
    ensures r == 1 <==> actual > ref
  {
    Truth(actual > ref)
  }

  /** GE(Actual, Ref): ((Actual) >= (Ref)). */
  function GE(actual: int, ref: int): (r: int)
    ensures r == 0 || r == 1
    ensures r == 1 <==> actual >= ref
  {
    Truth(actual >= ref)
  }

  /** Zero(Value): (Value) == 0. */
  function Zero(value: int): (r: int)
    ensures r == 0 || r == 1
    ensures r == 1 <==> value == 0
  {
    Truth(value == 0)
  }

  /** The helpers agree with one another the way the C operators do. */
  lemma HelpersRelated(a: int, b: int)
    ensures EQ(a, a) == 1
    ensures EQ(a, b) == EQ(b, a)
    ensures GT(a, b) == LT(b, a)
    ensures GE(a, b) == LE(b, a)
    ensures GE(a, b) == Not(LT(a, b))
    ensures LE(a, b) == Not(GT(a, b))
    ensures Zero(a) == EQ(a, 0)
    ensures Zero(a) == Not(a)
    ensures Not(Not(a)) == Not(Zero(a))
  {
  }

  /** Examples: EQ(1, 1) holds and EQ(0, 1) does not; Zero(0) holds and Zero(1) does not; LT(1, 2) holds and LT(2, 1) does not. */
  lemma HelperExamples()
    ensures EQ(1, 1) == 1 && EQ(0, 1) == 0
    ensures Zero(0) == 1 && Zero(1) == 0
    ensures LT(1, 2) == 1 && LT(2, 1) == 0
  {
  }
}
