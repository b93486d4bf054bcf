/**
 `synthValue`: which value it returns, after how many attempts, and exactly when its
 unbounded retry loop stops at all.
 */
module Synth {
  import opened Common
  import opened Fakes
  import opened FakePeriods
  import opened FakeShapes
  import opened Retry

  /** The values `synthValue` tries, attempt by attempt. */
  function Attempts(kind: Kind, typ: string, counter: nat): nat -> string {
    (a: nat) => Fake(kind, typ, counter, counter + a)
  }

  /** A value of the shape for number `n` is used already. */
  ghost predicate ShapeUsed(typ: string, original: string, counter: nat, used: set<string>, n: nat) {
    exists w :: w in used && Shaped(typ, original, counter, n, w)
  }

  /**
   Read off the text: `v` has the shape of the type's value for the number `counter + a`,
   and for each number before a value of that shape is used already.
   */
  ghost predicate ShapedFirst(typ: string, original: string, counter: nat, used: set<string>, a: nat, v: string) {
    && Shaped(typ, original, counter, counter + a, v)
    && forall n: nat :: counter <= n < counter + a ==> ShapeUsed(typ, original, counter, used, n)
  }

  lemma FirstIsShaped(typ: string, original: string, counter: nat, used: set<string>, v: string) returns (a: nat)
    requires FirstFresh(Attempts(KindOf(typ, original), typ, counter), used, v)
    ensures ShapedFirst(typ, original, counter, used, a, v)
  {
    hide Shaped, KindOf, Fake;
    var kind := KindOf(typ, original);
    var tries := Attempts(kind, typ, counter);
    a :| FirstFreshAt(tries, used, a, v);
    FakeIsShaped(typ, original, counter, counter + a);
    forall n: nat | counter <= n < counter + a ensures ShapeUsed(typ, original, counter, used, n) {
      FakeIsShaped(typ, original, counter, n);
      assert tries(n - counter) in used;
    }
  }

  /** `synthValue`: the first unused value. Without one the source never returns. */
  method SynthValue(typ: string, original: string, counter: nat, used: set<string>) returns (v: string)
    requires FreshExists(Attempts(KindOf(typ, original), typ, counter), used)
    ensures v !in used
    ensures FirstFresh(Attempts(KindOf(typ, original), typ, counter), used, v)
    ensures exists a: nat :: ShapedFirst(typ, original, counter, used, a, v)
  {
    hide ShapedFirst, KindOf, Fake;
    v := FirstUnused(Attempts(KindOf(typ, original), typ, counter), used);
    ghost var a := FirstIsShaped(typ, original, counter, used, v);
  }

  lemma AttemptsDistinct(kind: Kind, typ: string, counter: nat, w: nat)
    requires Period(kind).Some? ==> w <= Period(kind).value
    ensures DistinctUpTo(Attempts(kind, typ, counter), w)
  {
    hide Fake, Period;
    forall a: nat, b: nat | a < b < w
      ensures Attempts(kind, typ, counter)(a) != Attempts(kind, typ, counter)(b)
    {
      Distinct(kind, typ, counter, counter + a, counter + b);
    }
  }

  lemma AttemptShift(kind: Kind, typ: string, counter: nat, r: nat, k: nat, d: nat)
    requires Period(kind).Some? && d == Period(kind).value * k
    ensures Attempts(kind, typ, counter)(r + d) == Attempts(kind, typ, counter)(r)
  {
    Periodic(kind, typ, counter, counter + r, k);
    assert counter + (r + d) == counter + r + d;
  }

  lemma Divide(a: nat, p: nat) returns (r: nat, k: nat, d: nat)
    requires p > 0
    ensures a == r + d && r < p && d == p * k
  {
    r, k := a % p, a / p;
    d := p * k;
  }

  lemma AttemptRepeats(kind: Kind, typ: string, counter: nat, p: nat, a: nat)
    requires Period(kind) == Some(p)
    ensures RepeatsAt(Attempts(kind, typ, counter), p, a)
  {
    var r, k, d := Divide(a, p);
    AttemptShift(kind, typ, counter, r, k, d);
  }

  /** While fewer values are used than the period, the loop stops within `|used| + 1` attempts. */
  lemma StopsInTime(kind: Kind, typ: string, counter: nat, used: set<string>)
    requires Period(kind).Some? ==> |used| < Period(kind).value
    ensures exists a: nat, v :: a <= |used| && FirstFreshAt(Attempts(kind, typ, counter), used, a, v)
  {
    var tries := Attempts(kind, typ, counter);
    AttemptsDistinct(kind, typ, counter, |used| + 1);
    FreshWithin(tries, used, |used| + 1);
    var a: nat :| a < |used| + 1 && tries(a) !in used;
    var first := Earliest(tries, used, a);
  }

  lemma {:induction false} Earliest(tries: nat -> string, used: set<string>, a: nat) returns (first: nat)
    requires tries(a) !in used
    ensures first <= a && FirstFreshAt(tries, used, first, tries(first))
    decreases a
  {
    if b: nat :| b < a && tries(b) !in used {
      first := Earliest(tries, used, b);
    } else {
      first := a;
    }
  }

  lemma AttemptsCycle(kind: Kind, typ: string, counter: nat, p: nat)
    requires Period(kind) == Some(p)
    ensures DistinctUpTo(Attempts(kind, typ, counter), p)
    ensures Repeats(Attempts(kind, typ, counter), p)
  {
    AttemptsDistinct(kind, typ, counter, p);
    forall a: nat ensures RepeatsAt(Attempts(kind, typ, counter), p, a) {
      AttemptRepeats(kind, typ, counter, p, a);
    }
  }

  /**
   A generator with period `p` has `p` different values, and the loop stops exactly while
   one of them is unused. Once the pool is used up the source does not terminate.
   */
  lemma StopsExactly(kind: Kind, typ: string, counter: nat, used: set<string>, p: nat)
    requires Period(kind) == Some(p)
    ensures DistinctUpTo(Attempts(kind, typ, counter), p)
    ensures FreshExists(Attempts(kind, typ, counter), used) <==> FreshBelow(Attempts(kind, typ, counter), used, p)
  {
    AttemptsCycle(kind, typ, counter, p);
    FreshExactly(Attempts(kind, typ, counter), used, p);
  }
}
