/** Searching a sequence of tries for an unused value: the pigeonhole argument. */
module Retry {
  import opened Common

  /** Some try gives an unused value. */
  ghost predicate FreshExists(tries: nat -> string, used: set<string>) {
    exists a: nat :: tries(a) !in used
  }

  /** One of the first `w` tries gives an unused value. */
  ghost predicate FreshBelow(tries: nat -> string, used: set<string>, w: nat) {
    exists a: nat :: a < w && tries(a) !in used
  }

  /** `v` is the first unused value, found at try `a`. */
  ghost predicate FirstFreshAt(tries: nat -> string, used: set<string>, a: nat, v: string) {
    && v == tries(a) && v !in used
    && forall b: nat :: b < a ==> tries(b) in used
  }

  ghost predicate FirstFresh(tries: nat -> string, used: set<string>, v: string) {
    exists a: nat :: FirstFreshAt(tries, used, a, v)
  }

  /** The retry loop: one number after the other, without a bound. */
  method FirstUnused(tries: nat -> string, used: set<string>) returns (v: string)
    requires FreshExists(tries, used)
    ensures v !in used && FirstFresh(tries, used, v)
  {
    ghost var goal: nat :| tries(goal) !in used;
    var attempt: nat := 0;
    while true
      invariant attempt <= goal
      invariant forall b: nat :: b < attempt ==> tries(b) in used
      decreases goal - attempt
    {
      v := tries(attempt);
      if v !in used {
        assert FirstFreshAt(tries, used, attempt, v);
        return;
      }
      attempt := attempt + 1;
    }
  }

  lemma FirstFreshUnique(tries: nat -> string, used: set<string>, v: string, w: string)
    requires FirstFresh(tries, used, v) && FirstFresh(tries, used, w)
    ensures v == w
  {
    var a: nat :| FirstFreshAt(tries, used, a, v);
    var b: nat :| FirstFreshAt(tries, used, b, w);
  }

  /** The first `w` tries are pairwise different. */
  ghost predicate DistinctUpTo(tries: nat -> string, w: nat) {
    forall a: nat, b: nat :: a < b < w ==> tries(a) != tries(b)
  }

  /** Try `a` repeats one of the first `p`. */
  ghost predicate RepeatsAt(tries: nat -> string, p: nat, a: nat) {
    exists r: nat :: r < p && tries(a) == tries(r)
  }

  /** Every try repeats one of the first `p`. */
  ghost predicate Repeats(tries: nat -> string, p: nat) {
    forall a: nat :: RepeatsAt(tries, p, a)
  }

  /** The values of the first `w` tries. */
  ghost function Window(tries: nat -> string, w: nat): set<string> {
    if w == 0 then {} else Window(tries, w - 1) + {tries(w - 1)}
  }

  lemma {:induction false} InWindow(tries: nat -> string, w: nat, v: string)
    ensures v in Window(tries, w) <==> exists a: nat :: a < w && v == tries(a)
  {
    if w > 0 {
      InWindow(tries, w - 1, v);
    }
  }

  lemma {:induction false} WindowSize(tries: nat -> string, w: nat)
    requires DistinctUpTo(tries, w)
    ensures |Window(tries, w)| == w
  {
    if w > 0 {
      WindowSize(tries, w - 1);
      InWindow(tries, w - 1, tries(w - 1));
    }
  }

  /** Fewer used values than distinct tries: one of the tries is unused. */
  lemma FreshWithin(tries: nat -> string, used: set<string>, w: nat)
    requires |used| < w && DistinctUpTo(tries, w)
    ensures FreshBelow(tries, used, w)
  {
    WindowSize(tries, w);
    if Window(tries, w) <= used {
      SubsetSize(Window(tries, w), used);
      assert false;
    }
    var v :| v in Window(tries, w) && v !in used;
    InWindow(tries, w, v);
  }

  /** When the tries repeat the first `p`, a fresh one exists exactly when one of those is fresh. */
  lemma FreshExactly(tries: nat -> string, used: set<string>, p: nat)
    requires Repeats(tries, p)
    ensures FreshExists(tries, used) <==> FreshBelow(tries, used, p)
  {
    if FreshExists(tries, used) {
      var a: nat :| tries(a) !in used;
      assert RepeatsAt(tries, p, a);
    }
  }
}
