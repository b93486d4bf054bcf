/**
 Spans and their normal form: `mergeSpans` of internal/service/service.go.
 Positions are indices into a sequence of code points.
 */
module Spans {
  import opened SortSlice

  datatype Span = Span(start: nat, end: nat, typ: string)

  /** Every span is non-empty. */
  ghost predicate NonEmpty(spans: seq<Span>) {
    forall s :: s in spans ==> s.start < s.end
  }

  /** Every span is non-empty and lies inside a text of length `n`. */
  ghost predicate Within(spans: seq<Span>, n: nat) {
    forall s :: s in spans ==> s.start < s.end <= n
  }

  /** Position `p` lies in one of the spans. */
  ghost predicate Covers(spans: seq<Span>, p: int) {
    exists s :: s in spans && s.start <= p < s.end
  }

  /** Ascending, with at least one position between neighbours. */
  ghost predicate Separated(spans: seq<Span>) {
    forall i, j :: 0 <= i < j < |spans| ==> spans[i].end < spans[j].start
  }

  /** `typ` is the type of a widest input span that starts where `m` starts. */
  ghost predicate TypedByWidest(m: Span, spans: seq<Span>) {
    exists h ::
      && h in spans && h.start == m.start && h.typ == m.typ
      && forall s :: s in spans && s.start == m.start ==> s.end <= h.end
  }

  /** `merged` is a normal form of `spans`. */
  ghost predicate NormalFormOf(merged: seq<Span>, spans: seq<Span>) {
    && NonEmpty(merged)
    && Separated(merged)
    && (forall p :: Covers(merged, p) <==> Covers(spans, p))
    && (forall m :: m in merged ==> TypedByWidest(m, spans))
  }

  /** The comparison `mergeSpans` sorts by: start ascending, then end descending. */
  predicate SpanLess(x: Span, y: Span) {
    if x.start == y.start then x.end > y.end else x.start < y.start
  }

  // ----- the merging loop -----

  lemma CoversAppend(spans: seq<Span>, s: Span)
    ensures forall p :: Covers(spans + [s], p) <==> Covers(spans, p) || s.start <= p < s.end
  {
    forall p
      ensures Covers(spans + [s], p) <==> Covers(spans, p) || s.start <= p < s.end
    {
      if s.start <= p < s.end {
        assert s in spans + [s];
      }
      if Covers(spans, p) {
        var t :| t in spans && t.start <= p < t.end;
        assert t in spans + [s];
      }
    }
  }

  lemma CoversLast(merged: seq<Span>)
    requires merged != []
    ensures forall p :: Covers(merged, p) <==>
      Covers(merged[..|merged| - 1], p) || merged[|merged| - 1].start <= p < merged[|merged| - 1].end
  {
    assert merged == merged[..|merged| - 1] + [merged[|merged| - 1]];
    CoversAppend(merged[..|merged| - 1], merged[|merged| - 1]);
  }

  /** Widening the last merged span to take in `curr` covers exactly that interval more. */
  lemma CoversWidened(merged: seq<Span>, widened: seq<Span>, curr: Span)
    requires merged != []
    requires var last := merged[|merged| - 1];
      && last.start <= curr.start <= last.end
      && widened == merged[|merged| - 1 := last.(end := if curr.end > last.end then curr.end else last.end)]
    ensures forall p :: Covers(widened, p) <==> Covers(merged, p) || curr.start <= p < curr.end
  {
    var k := |merged| - 1;
    CoversLast(merged);
    CoversLast(widened);
    assert widened[..k] == merged[..k];
  }

  /** What the loop knows after the first `i` spans of the sorted slice. */
  ghost predicate MergedSoFar(merged: seq<Span>, s: seq<Span>, i: nat)
    requires i <= |s|
  {
    && merged != []
    && NormalFormOf(merged, s[..i])
    && forall x :: x in s[..i] ==> x.start <= merged[|merged| - 1].end
  }

  lemma TypesKept(m: Span, s: seq<Span>, i: nat)
    requires i < |s| && Sorted(SpanLess, s)
    requires TypedByWidest(m, s[..i])
    ensures TypedByWidest(m, s[..i + 1])
  {
    var h :| && h in s[..i] && h.start == m.start && h.typ == m.typ
             && forall x :: x in s[..i] && x.start == m.start ==> x.end <= h.end;
    assert s[..i + 1] == s[..i] + [s[i]];
    var k :| 0 <= k < i && s[k] == h;
    assert !SpanLess(s[i], s[k]);
    assert h in s[..i + 1];
  }

  lemma StartsNoEarlier(s: seq<Span>, i: nat, m: Span)
    requires i < |s| && Sorted(SpanLess, s) && TypedByWidest(m, s[..i])
    ensures m.start <= s[i].start
  {
    var h :| h in s[..i] && h.start == m.start;
    var j :| 0 <= j < i && s[j] == h;
    assert !SpanLess(s[i], s[j]);
  }

  lemma TypesWidened(merged: seq<Span>, widened: seq<Span>, s: seq<Span>, i: nat, end: nat)
    requires i < |s| && Sorted(SpanLess, s) && merged != []
    requires forall m :: m in merged ==> TypedByWidest(m, s[..i])
    requires widened == merged[|merged| - 1 := merged[|merged| - 1].(end := end)]
    ensures forall m :: m in widened ==> TypedByWidest(m, s[..i + 1])
  {
    var k := |merged| - 1;
    forall m | m in widened ensures TypedByWidest(m, s[..i + 1]) {
      if m in merged {
        TypesKept(m, s, i);
      } else {
        assert merged[k] in merged;
        TypesKept(merged[k], s, i);
      }
    }
  }

  lemma StepWiden(merged: seq<Span>, s: seq<Span>, i: nat)
    requires i < |s| && Sorted(SpanLess, s) && NonEmpty(s)
    requires MergedSoFar(merged, s, i)
    requires s[i].start <= merged[|merged| - 1].end
    ensures var k := |merged| - 1;
      var end := if s[i].end > merged[k].end then s[i].end else merged[k].end;
      MergedSoFar(merged[k := merged[k].(end := end)], s, i + 1)
  {
    var k := |merged| - 1;
    var last := merged[k];
    var end := if s[i].end > last.end then s[i].end else last.end;
    var widened := merged[k := last.(end := end)];
    assert s[..i + 1] == s[..i] + [s[i]];
    CoversAppend(s[..i], s[i]);
    assert last in merged && TypedByWidest(last, s[..i]);
    StartsNoEarlier(s, i, last);
    CoversWidened(merged, widened, s[i]);
    TypesWidened(merged, widened, s, i, end);
  }

  lemma StepAppend(merged: seq<Span>, s: seq<Span>, i: nat)
    requires i < |s| && Sorted(SpanLess, s) && NonEmpty(s)
    requires MergedSoFar(merged, s, i)
    requires s[i].start > merged[|merged| - 1].end
    ensures MergedSoFar(merged + [s[i]], s, i + 1)
  {
    var next := merged + [s[i]];
    assert s[..i + 1] == s[..i] + [s[i]];
    CoversAppend(s[..i], s[i]);
    CoversAppend(merged, s[i]);
    assert s[i] in s;
    forall x | x in s[..i] ensures x.start < s[i].start {
      assert x.start <= merged[|merged| - 1].end;
    }
    forall m | m in next ensures TypedByWidest(m, s[..i + 1]) {
      if m in merged {
        TypesKept(m, s, i);
      } else {
        assert m == s[i] && s[i] in s[..i + 1];
      }
    }
  }

  lemma NormalFormOfPermutation(merged: seq<Span>, s: seq<Span>, t: seq<Span>)
    requires multiset(s) == multiset(t)
    requires NormalFormOf(merged, s)
    ensures NormalFormOf(merged, t)
  {
    assert forall x :: x in s <==> x in multiset(s);
    assert forall x :: x in t <==> x in multiset(t);
    forall p ensures Covers(s, p) <==> Covers(t, p) {
    }
    forall m | m in merged ensures TypedByWidest(m, t) {
      assert TypedByWidest(m, s);
    }
  }

  lemma MergeStart(s: seq<Span>)
    requires s != [] && NonEmpty(s)
    ensures MergedSoFar([s[0]], s, 1)
  {
    assert s[..1] == [s[0]];
    assert s[0] in s && s[0] in s[..1];
  }

  lemma MergeEnd(merged: seq<Span>, s: seq<Span>)
    requires MergedSoFar(merged, s, |s|)
    ensures NormalFormOf(merged, s)
  {
    assert s[..|s|] == s;
  }

  lemma SpanOrder()
    ensures StrictWeakOrder(SpanLess)
  {
  }

  lemma NonEmptyPermutation(s: seq<Span>, t: seq<Span>)
    requires NonEmpty(s) && multiset(s) == multiset(t)
    ensures NonEmpty(t)
  {
    forall x | x in t ensures x.start < x.end {
      assert x in multiset(s);
    }
  }

  /**
   `mergeSpans`: sorts the slice in place, then walks it, widening the last
   merged span or starting a new one. Callers never pass an empty slice
   (`collectSpans` returns first).
   */
  method MergeSpans(spans: array<Span>) returns (merged: seq<Span>)
    requires spans.Length > 0 && NonEmpty(spans[..])
    modifies spans
    ensures NormalFormOf(merged, old(spans[..]))
    ensures multiset(spans[..]) == multiset(old(spans[..]))
  {
    hide Sorted, NormalFormOf, MergedSoFar, SpanLess;
    SpanOrder();
    Sort(spans, SpanLess);
    ghost var s := spans[..];
    NonEmptyPermutation(old(spans[..]), s);
    merged := [spans[0]];
    MergeStart(s);
    var i := 1;
    while i < spans.Length
      invariant 1 <= i <= spans.Length && s == spans[..] && merged != []
      invariant MergedSoFar(merged, s, i)
    {
      var curr := spans[i];
      var last := |merged| - 1;
      if curr.start <= merged[last].end {
        StepWiden(merged, s, i);
        if curr.end > merged[last].end {
          merged := merged[last := merged[last].(end := curr.end)];
        } else {
          assert merged[last := merged[last].(end := merged[last].end)] == merged;
        }
      } else {
        StepAppend(merged, s, i);
        merged := merged + [curr];
      }
      i := i + 1;
    }
    MergeEnd(merged, s);
    NormalFormOfPermutation(merged, s, old(spans[..]));
  }

  // ----- what the normal form means -----

  lemma NothingSeparated()
    ensures Separated([])
  {
  }

  lemma SeparatedCons(head: Span, rest: seq<Span>)
    requires Separated(rest) && forall s :: s in rest ==> head.end < s.start
    ensures Separated([head] + rest)
  {
    forall k | 0 <= k < |rest| ensures head.end < rest[k].start {
      assert rest[k] in rest;
    }
  }

  /** The intervals of a span list, without their types. */
  function Intervals(spans: seq<Span>): (r: seq<(nat, nat)>) {
    seq(|spans|, i requires 0 <= i < |spans| => (spans[i].start, spans[i].end))
  }

  /** In a normal form each interval is a maximal run of covered positions. */
  lemma MaximalRuns(merged: seq<Span>, spans: seq<Span>, m: Span)
    requires NormalFormOf(merged, spans) && m in merged
    ensures forall p :: m.start <= p < m.end ==> Covers(spans, p)
    ensures !Covers(spans, m.end) && !Covers(spans, m.start - 1)
  {
    var k :| 0 <= k < |merged| && merged[k] == m;
    forall p | m.start <= p < m.end ensures Covers(spans, p) {
      assert Covers(merged, p);
    }
    forall p | p == m.end || p == m.start - 1 ensures !Covers(merged, p) {
      forall s | s in merged ensures !(s.start <= p < s.end) {
        var j :| 0 <= j < |merged| && merged[j] == s;
        if j < k {
          assert merged[j].end < merged[k].start;
        } else if j > k {
          assert merged[k].end < merged[j].start;
        }
      }
    }
  }

  lemma FirstStart(a: seq<Span>, b: seq<Span>)
    requires NonEmpty(a) && Separated(a) && NonEmpty(b) && Separated(b)
    requires forall p :: Covers(a, p) <==> Covers(b, p)
    requires a != []
    ensures b != [] && b[0].start <= a[0].start
  {
    assert a[0] in a;
    assert Covers(a, a[0].start);
    var s :| s in b && s.start <= a[0].start < s.end;
    var j :| 0 <= j < |b| && b[j] == s;
    assert b[0] in b;
    if j > 0 {
      assert b[0].end < b[j].start;
    }
  }

  lemma FirstEnd(a: seq<Span>, b: seq<Span>)
    requires NonEmpty(a) && Separated(a) && NonEmpty(b) && Separated(b)
    requires forall p :: Covers(a, p) <==> Covers(b, p)
    requires a != [] && b != [] && a[0].start == b[0].start
    ensures b[0].end <= a[0].end
  {
    if b[0].end > a[0].end {
      assert a[0] in a && b[0] in b;
      assert Covers(b, a[0].end);
      assert false;
    }
  }

  lemma CoversTail(a: seq<Span>)
    requires a != [] && NonEmpty(a) && Separated(a)
    ensures forall p :: Covers(a[1..], p) <==> Covers(a, p) && p >= a[0].end
    ensures NonEmpty(a[1..]) && Separated(a[1..])
  {
    forall p ensures Covers(a[1..], p) <==> Covers(a, p) && p >= a[0].end {
      if Covers(a[1..], p) {
        var s :| s in a[1..] && s.start <= p < s.end;
        var j :| 0 <= j < |a[1..]| && a[1..][j] == s;
        assert a[0].end < a[j + 1].start;
        assert s in a;
      }
      if Covers(a, p) && p >= a[0].end {
        var s :| s in a && s.start <= p < s.end;
        assert s != a[0];
        assert s in a[1..];
      }
    }
  }

  lemma IntervalsCons(a: seq<Span>)
    requires a != []
    ensures Intervals(a) == [(a[0].start, a[0].end)] + Intervals(a[1..])
  {
  }

  /** Two separated lists that cover the same positions have the same intervals. */
  lemma {:induction false} NormalFormUnique(a: seq<Span>, b: seq<Span>)
    requires NonEmpty(a) && Separated(a) && NonEmpty(b) && Separated(b)
    requires forall p :: Covers(a, p) <==> Covers(b, p)
    ensures Intervals(a) == Intervals(b)
  {
    hide Covers, Intervals, NonEmpty, Separated;
    if a == [] && b == [] {
    } else if a == [] {
      FirstStart(b, a);
      assert false;
    } else {
      FirstStart(a, b);
      FirstStart(b, a);
      FirstEnd(a, b);
      FirstEnd(b, a);
      CoversTail(a);
      CoversTail(b);
      NormalFormUnique(a[1..], b[1..]);
      IntervalsCons(a);
      IntervalsCons(b);
    }
  }

  /**
   However the input is ordered, however the unstable sort breaks ties, and however
   often the result is merged again, the intervals come out the same.
   */
  lemma MergeCanonical(s: seq<Span>, t: seq<Span>, a: seq<Span>, b: seq<Span>, again: seq<Span>)
    requires multiset(s) == multiset(t)
    requires NormalFormOf(a, s) && NormalFormOf(b, t) && NormalFormOf(again, a)
    ensures Intervals(a) == Intervals(b) == Intervals(again)
  {
    NormalFormOfPermutation(a, s, t);
    NormalFormUnique(a, b);
    NormalFormUnique(a, again);
  }
}
