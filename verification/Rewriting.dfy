/**
 A rewritten text position by position: the unmasked parts stand unchanged at their
 shifted places and the keys stand where the spans were. This decides the text.
 */
module Rewriting {
  import opened Spans
  import opened Weaving

  /** How much text the first `i` spans take. */
  function SpanLengths(spans: seq<Span>, i: nat): int
    requires i <= |spans|
  {
    if i == 0 then 0 else SpanLengths(spans, i - 1) + (spans[i - 1].end - spans[i - 1].start)
  }

  /** How much text the first `i` keys take. */
  function KeyLengths(keys: seq<string>, i: nat): nat
    requires i <= |keys|
  {
    if i == 0 then 0 else KeyLengths(keys, i - 1) + |keys[i - 1]|
  }

  /** Where a position behind the first `i` spans and before the next stands in the masked text. */
  function Shifted(spans: seq<Span>, keys: seq<string>, i: nat, p: nat): int
    requires i <= |spans| == |keys|
  {
    p - SpanLengths(spans, i) + KeyLengths(keys, i)
  }

  /** Position `p` lies behind the first `i` spans and before the others. */
  predicate InGap(input: string, spans: seq<Span>, i: nat, p: nat)
    requires i <= |spans|
  {
    && p < |input|
    && (forall j :: 0 <= j < i ==> spans[j].end <= p)
    && (forall j :: i <= j < |spans| ==> p < spans[j].start)
  }

  /** The part of `text` of the given length at `at`. */
  predicate StandsAt(part: string, text: string, at: int) {
    0 <= at && at + |part| <= |text| && text[at..at + |part|] == part
  }

  /**
   `masked` is `input` with each span replaced by its key: the lengths add up, every
   position outside the spans is unchanged at its shifted place, and every key stands at the
   shifted start of its span.
   */
  ghost predicate Rewritten(input: string, spans: seq<Span>, keys: seq<string>, masked: string)
    requires |spans| == |keys|
  {
    && |masked| == Shifted(spans, keys, |spans|, |input|)
    && (forall i: nat, p: nat :: i <= |spans| && InGap(input, spans, i, p) ==>
          StandsAt([input[p]], masked, Shifted(spans, keys, i, p)))
    && (forall i: nat :: i < |spans| ==> StandsAt(keys[i], masked, Shifted(spans, keys, i, spans[i].start)))
  }

  /** The masked text of the first `n` spans. */
  function Prefix(input: string, spans: seq<Span>, keys: seq<string>, n: nat): string
    requires Fits(spans, |input|) && n <= |keys| == |spans|
  {
    Woven(Pieces(input, spans, keys[..n]), "")
  }

  lemma PrefixStep(input: string, spans: seq<Span>, keys: seq<string>, n: nat)
    requires Fits(spans, |input|) && n < |keys| == |spans|
    ensures Cursor(spans, n) <= spans[n].start < spans[n].end <= |input|
    ensures Prefix(input, spans, keys, n + 1) ==
      Prefix(input, spans, keys, n) + input[Cursor(spans, n)..spans[n].start] + keys[n]
  {
    hide Woven;
    CursorFits(spans, |input|, n);
    assert keys[..n + 1] == keys[..n] + [keys[n]];
    PiecesStep(input, spans, keys[..n], keys[n]);
    WovenStep(Pieces(input, spans, keys[..n]), PieceAt(input, spans, keys[n], n));
  }

  lemma {:induction false} PrefixLength(input: string, spans: seq<Span>, keys: seq<string>, n: nat)
    requires Fits(spans, |input|) && n <= |keys| == |spans|
    ensures |Prefix(input, spans, keys, n)| == Shifted(spans, keys, n, Cursor(spans, n))
  {
    hide Fits;
    if n == 0 {
      EmptyPrefix(input, spans, keys);
    } else {
      hide Prefix;
      PrefixLength(input, spans, keys, n - 1);
      PrefixStep(input, spans, keys, n - 1);
    }
  }

  lemma EmptyPrefix(input: string, spans: seq<Span>, keys: seq<string>)
    requires Fits(spans, |input|) && |keys| == |spans|
    ensures Prefix(input, spans, keys, 0) == ""
  {
  }

  /** What is written stays: the text of the first `n` spans starts the text of more. */
  lemma {:induction false} PrefixKept(input: string, spans: seq<Span>, keys: seq<string>, n: nat, m: nat)
    requires Fits(spans, |input|) && n <= m <= |keys| == |spans|
    ensures Prefix(input, spans, keys, n) <= Prefix(input, spans, keys, m)
    decreases m
  {
    hide Prefix, Fits;
    if n < m {
      PrefixKept(input, spans, keys, n, m - 1);
      PrefixStep(input, spans, keys, m - 1);
    }
  }

  /** The whole masked text starts with what is written for the first `n` spans and the gap behind them. */
  lemma MaskedStarts(input: string, spans: seq<Span>, keys: seq<string>, n: nat)
    requires Fits(spans, |input|) && n <= |keys| == |spans|
    ensures Cursor(spans, n) <= |input|
    ensures var masked := Woven(Pieces(input, spans, keys), Tail(input, spans));
      if n < |spans| then
        Cursor(spans, n) <= spans[n].start <= |input|
        && Prefix(input, spans, keys, n) + input[Cursor(spans, n)..spans[n].start] + keys[n] <= masked
      else masked == Prefix(input, spans, keys, n) + input[Cursor(spans, n)..]
  {
    hide Woven, Fits;
    assert keys[..|keys|] == keys;
    WovenEnd(Pieces(input, spans, keys), Tail(input, spans));
    CursorFits(spans, |input|, n);
    if n < |spans| {
      PrefixStep(input, spans, keys, n);
      PrefixKept(input, spans, keys, n + 1, |keys|);
    }
  }

  lemma PartOfPrefix(text: string, whole: string, at: int, part: string)
    requires text <= whole && 0 <= at && at + |part| <= |text| && text[at..at + |part|] == part
    ensures StandsAt(part, whole, at)
  {
  }

  lemma GapIndex(input: string, spans: seq<Span>, i: nat, p: nat)
    requires Fits(spans, |input|) && i <= |spans| && InGap(input, spans, i, p)
    ensures Cursor(spans, i) <= p < |input| && (i < |spans| ==> p < spans[i].start)
  {
  }

  lemma GapShown(input: string, spans: seq<Span>, keys: seq<string>, i: nat, p: nat)
    requires Fits(spans, |input|) && i <= |keys| == |spans| && InGap(input, spans, i, p)
    ensures StandsAt([input[p]], Woven(Pieces(input, spans, keys), Tail(input, spans)), Shifted(spans, keys, i, p))
  {
    hide Woven, Fits, Prefix, Tail, InGap;
    var masked, before := Woven(Pieces(input, spans, keys), Tail(input, spans)), Prefix(input, spans, keys, i);
    GapIndex(input, spans, i, p);
    MaskedStarts(input, spans, keys, i);
    PrefixLength(input, spans, keys, i);
    var gap := input[Cursor(spans, i)..if i < |spans| then spans[i].start else |input|];
    assert gap[p - Cursor(spans, i)] == input[p];
    PartOfPrefix(before + gap, masked, |before| + p - Cursor(spans, i), [input[p]]);
  }

  lemma KeyShown(input: string, spans: seq<Span>, keys: seq<string>, i: nat)
    requires Fits(spans, |input|) && i < |keys| == |spans|
    ensures StandsAt(keys[i], Woven(Pieces(input, spans, keys), Tail(input, spans)),
                     Shifted(spans, keys, i, spans[i].start))
  {
    hide Woven, Fits, Prefix, Tail;
    var masked, before := Woven(Pieces(input, spans, keys), Tail(input, spans)), Prefix(input, spans, keys, i);
    MaskedStarts(input, spans, keys, i);
    PrefixLength(input, spans, keys, i);
    var gap := input[Cursor(spans, i)..spans[i].start];
    PartOfPrefix(before + gap + keys[i], masked, |before + gap|, keys[i]);
  }

  lemma MaskedLength(input: string, spans: seq<Span>, keys: seq<string>)
    requires Fits(spans, |input|) && |keys| == |spans|
    ensures |Woven(Pieces(input, spans, keys), Tail(input, spans))| == Shifted(spans, keys, |spans|, |input|)
  {
    hide Woven, Fits, Prefix, Tail;
    MaskedStarts(input, spans, keys, |spans|);
    PrefixLength(input, spans, keys, |spans|);
  }

  /** Whatever the keys: the gaps stand where they were, shifted, and each key in place of its span. */
  lemma WovenRewritten(input: string, spans: seq<Span>, keys: seq<string>)
    requires Fits(spans, |input|) && |keys| == |spans|
    ensures Rewritten(input, spans, keys, Woven(Pieces(input, spans, keys), Tail(input, spans)))
  {
    hide Woven, Fits, Tail, StandsAt, InGap;
    var masked := Woven(Pieces(input, spans, keys), Tail(input, spans));
    MaskedLength(input, spans, keys);
    forall i: nat, p: nat | i <= |spans| && InGap(input, spans, i, p)
      ensures p < |input| && StandsAt([input[p]], masked, Shifted(spans, keys, i, p))
    {
      GapIndex(input, spans, i, p);
      GapShown(input, spans, keys, i, p);
    }
    forall i: nat | i < |spans| ensures StandsAt(keys[i], masked, Shifted(spans, keys, i, spans[i].start)) {
      KeyShown(input, spans, keys, i);
    }
  }

  /** Every position outside the spans lies in one of the gaps. */
  lemma {:induction false} UncoveredInGap(input: string, spans: seq<Span>, p: nat, n: nat) returns (i: nat)
    requires Fits(spans, |input|) && p < |input| && !Covers(spans, p) && n <= |spans|
    requires forall j :: n <= j < |spans| ==> p < spans[j].start
    ensures i <= |spans| && InGap(input, spans, i, p)
  {
    if n == 0 || spans[n - 1].start <= p {
      i := n;
      if n > 0 {
        assert spans[n - 1] in spans;
        CursorFits(spans, |input|, n - 1);
        assert forall j :: 0 <= j < n - 1 ==> spans[j].end < spans[n - 1].start;
      }
    } else {
      i := UncoveredInGap(input, spans, p, n - 1);
    }
  }

  lemma GapPosition(input: string, spans: seq<Span>, i: nat, p: nat)
    requires Fits(spans, |input|) && i <= |spans| && Cursor(spans, i) <= p < |input|
    requires i < |spans| ==> p < spans[i].start
    ensures InGap(input, spans, i, p)
  {
    forall j | 0 <= j < i ensures spans[j].end <= p {
      assert j < i - 1 ==> spans[j].end < spans[i - 1].start;
      CursorFits(spans, |input|, i - 1);
    }
  }

  /** A text with the right gap behind `before` goes on with that gap. */
  lemma GapFollows(
    input: string, spans: seq<Span>, keys: seq<string>, masked: string, i: nat, end: nat, before: string)
    requires Fits(spans, |input|) && i <= |keys| == |spans| && Rewritten(input, spans, keys, masked)
    requires Cursor(spans, i) <= end <= |input| && (i < |spans| ==> end <= spans[i].start)
    requires before <= masked && |before| == Shifted(spans, keys, i, Cursor(spans, i))
    requires |before| + end - Cursor(spans, i) <= |masked|
    ensures before + input[Cursor(spans, i)..end] <= masked
  {
    hide Fits, Rewritten, Cursor;
    var gap := input[Cursor(spans, i)..end];
    forall j | 0 <= j < |gap| ensures masked[|before| + j] == gap[j] {
      GapFollowsAt(input, spans, keys, masked, i, Cursor(spans, i) + j);
    }
    PartFollows(before, gap, masked);
  }

  lemma GapFollowsAt(input: string, spans: seq<Span>, keys: seq<string>, masked: string, i: nat, p: nat)
    requires Fits(spans, |input|) && i <= |keys| == |spans| && Rewritten(input, spans, keys, masked)
    requires Cursor(spans, i) <= p < |input| && (i < |spans| ==> p < spans[i].start)
    ensures 0 <= Shifted(spans, keys, i, p) < |masked| && masked[Shifted(spans, keys, i, p)] == input[p]
  {
    hide Fits, InGap;
    GapPosition(input, spans, i, p);
    var at := Shifted(spans, keys, i, p);
    assert StandsAt([input[p]], masked, at);
    assert masked[at..at + 1][0] == [input[p]][0];
  }

  lemma PartFollows(before: string, part: string, masked: string)
    requires before <= masked && |before| + |part| <= |masked|
    requires forall j :: 0 <= j < |part| ==> masked[|before| + j] == part[j]
    ensures before + part <= masked
  {
    assert masked[|before|..|before| + |part|] == part;
  }

  lemma {:induction false} RewrittenStarts(input: string, spans: seq<Span>, keys: seq<string>, masked: string, n: nat)
    requires Fits(spans, |input|) && n <= |keys| == |spans| && Rewritten(input, spans, keys, masked)
    ensures Prefix(input, spans, keys, n) <= masked
  {
    hide Fits, Rewritten, Prefix;
    if n == 0 {
      EmptyPrefix(input, spans, keys);
    } else {
      var k := n - 1;
      var before := Prefix(input, spans, keys, k);
      RewrittenStarts(input, spans, keys, masked, k);
      PrefixStep(input, spans, keys, k);
      PrefixLength(input, spans, keys, k);
      RewrittenKey(input, spans, keys, masked, k);
      var gap := input[Cursor(spans, k)..spans[k].start];
      GapFollows(input, spans, keys, masked, k, spans[k].start, before);
      KeyFollows(before + gap, keys[k], masked);
    }
  }

  lemma KeyFollows(before: string, key: string, masked: string)
    requires before <= masked && StandsAt(key, masked, |before|)
    ensures before + key <= masked
  {
  }

  lemma RewrittenKey(input: string, spans: seq<Span>, keys: seq<string>, masked: string, i: nat)
    requires |spans| == |keys| && Rewritten(input, spans, keys, masked) && i < |spans|
    ensures StandsAt(keys[i], masked, Shifted(spans, keys, i, spans[i].start))
  {
  }

  lemma RewrittenLength(input: string, spans: seq<Span>, keys: seq<string>, masked: string)
    requires |spans| == |keys| && Rewritten(input, spans, keys, masked)
    ensures |masked| == Shifted(spans, keys, |spans|, |input|)
  {
  }

  /** The positions decide: there is only one text in which everything stands at its place. */
  lemma RewrittenExact(input: string, spans: seq<Span>, keys: seq<string>, masked: string)
    requires Fits(spans, |input|) && |keys| == |spans|
    ensures Rewritten(input, spans, keys, masked) <==> masked == Woven(Pieces(input, spans, keys), Tail(input, spans))
  {
    hide Fits, Rewritten, Prefix, Woven;
    WovenRewritten(input, spans, keys);
    if Rewritten(input, spans, keys, masked) {
      var n := |spans|;
      var before := Prefix(input, spans, keys, n);
      MaskedStarts(input, spans, keys, n);
      PrefixLength(input, spans, keys, n);
      MaskedLength(input, spans, keys);
      RewrittenStarts(input, spans, keys, masked, n);
      RewrittenLength(input, spans, keys, masked);
      GapFollows(input, spans, keys, masked, n, |input|, before);
    }
  }

  /** So every unmasked position of the text is still there, at its shifted place. */
  lemma UnmaskedStands(input: string, spans: seq<Span>, keys: seq<string>, masked: string, p: nat) returns (i: nat)
    requires Fits(spans, |input|) && |keys| == |spans| && Rewritten(input, spans, keys, masked)
    requires p < |input| && !Covers(spans, p)
    ensures i <= |spans| && InGap(input, spans, i, p)
    ensures StandsAt([input[p]], masked, Shifted(spans, keys, i, p))
  {
    hide InGap;
    i := UncoveredInGap(input, spans, p, |spans|);
  }
}
