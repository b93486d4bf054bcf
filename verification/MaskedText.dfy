/**
 What a masked text shows and what it hides: the unmasked parts stand at their places, the
 placeholders are numbered from left to right, and the masked parts have no influence on
 the result.
 */
module MaskedText {
  import opened Common
  import opened Spans
  import opened Collect
  import opened Tokens
  import opened Fakes
  import opened FakeShapes
  import opened Retry
  import opened Synth
  import opened Weaving
  import opened Rewriting
  import opened Maskers
  import opened RoundTrips
  import opened Termination
  import opened Service

  // ----- tokens -----

  /** The spans of type `typ` before span `i`. */
  function Earlier(spans: seq<Span>, typ: string, i: nat): set<nat>
    requires i <= |spans|
  {
    set j: nat | 0 <= j < i && spans[j].typ == typ
  }

  lemma EarlierStep(spans: seq<Span>, typ: string, i: nat)
    requires i < |spans|
    ensures i !in Earlier(spans, typ, i)
    ensures Earlier(spans, typ, i + 1) == Earlier(spans, typ, i) + (if spans[i].typ == typ then {i} else {})
  {
  }

  lemma {:induction false} CountIsEarlier(spans: seq<Span>, typ: string, i: nat)
    requires i <= |spans|
    ensures Count(spans, typ, i) == |Earlier(spans, typ, i)|
  {
    if i == 0 {
      assert Earlier(spans, typ, 0) == {};
    } else {
      CountIsEarlier(spans, typ, i - 1);
      EarlierStep(spans, typ, i - 1);
    }
  }

  /** Placeholders are numbered per type from left to right, starting with one. */
  lemma TokensNumbered(spans: seq<Span>, i: nat)
    requires i < |spans|
    ensures TokenKeys(spans)[i] == Placeholder(spans[i].typ, |Earlier(spans, spans[i].typ, i)| + 1)
  {
    CountIsEarlier(spans, spans[i].typ, i);
  }

  // ----- what the masked text does not depend on -----

  /** The unmasked text before span `i`, or behind the last one. */
  function Gap(input: string, spans: seq<Span>, i: nat): string
    requires Fits(spans, |input|) && i <= |spans|
  {
    CursorFits(spans, |input|, i);
    input[Cursor(spans, i)..if i < |spans| then spans[i].start else |input|]
  }

  /** The two texts differ at most in their masked parts. */
  ghost predicate SameOutside(a: string, sa: seq<Span>, b: string, sb: seq<Span>)
    requires Fits(sa, |a|) && Fits(sb, |b|)
  {
    && |sa| == |sb|
    && (forall i :: 0 <= i < |sa| ==> sa[i].typ == sb[i].typ)
    && (forall i :: 0 <= i <= |sa| ==> Gap(a, sa, i) == Gap(b, sb, i))
  }

  lemma SamePieces(a: string, sa: seq<Span>, b: string, sb: seq<Span>, keys: seq<string>, i: nat)
    requires Fits(sa, |a|) && Fits(sb, |b|) && SameOutside(a, sa, b, sb) && i < |keys| == |sa|
    ensures Pieces(a, sa, keys)[i].gap == Pieces(b, sb, keys)[i].gap
    ensures Pieces(a, sa, keys)[i].key == Pieces(b, sb, keys)[i].key
  {
    assert Gap(a, sa, i) == Gap(b, sb, i);
  }

  lemma {:induction false} SameGapsSameText(ps: seq<Piece>, qs: seq<Piece>, tail: string)
    requires |ps| == |qs| && forall i :: 0 <= i < |ps| ==> ps[i].gap == qs[i].gap && ps[i].key == qs[i].key
    ensures Woven(ps, tail) == Woven(qs, tail)
  {
    if ps != [] {
      SameGapsSameText(ps[1..], qs[1..], tail);
    }
  }

  /** With the same keys the masked texts are the same, whatever the masked parts hold. */
  lemma MaskedPartsHidden(a: string, sa: seq<Span>, b: string, sb: seq<Span>, keys: seq<string>)
    requires Fits(sa, |a|) && Fits(sb, |b|) && SameOutside(a, sa, b, sb) && |keys| == |sa|
    ensures Woven(Pieces(a, sa, keys), Tail(a, sa)) == Woven(Pieces(b, sb, keys), Tail(b, sb))
  {
    hide Fits, SameOutside, Gap, Woven;
    SameTails(a, sa, b, sb);
    forall i | 0 <= i < |keys|
      ensures Pieces(a, sa, keys)[i].gap == Pieces(b, sb, keys)[i].gap
      ensures Pieces(a, sa, keys)[i].key == Pieces(b, sb, keys)[i].key
    {
      SamePieces(a, sa, b, sb, keys, i);
    }
    SameGapsSameText(Pieces(a, sa, keys), Pieces(b, sb, keys), Tail(a, sa));
  }

  lemma SameTails(a: string, sa: seq<Span>, b: string, sb: seq<Span>)
    requires Fits(sa, |a|) && Fits(sb, |b|) && SameOutside(a, sa, b, sb)
    ensures Tail(a, sa) == Tail(b, sb) && |sa| == |sb|
  {
    assert Gap(a, sa, |sa|) == Gap(b, sb, |sb|);
    assert Tail(a, sa) == Gap(a, sa, |sa|) && Tail(b, sb) == Gap(b, sb, |sb|);
  }

  lemma {:induction false} SameCounts(sa: seq<Span>, sb: seq<Span>, typ: string, n: nat)
    requires n <= |sa| == |sb| && forall i :: 0 <= i < |sa| ==> sa[i].typ == sb[i].typ
    ensures Count(sa, typ, n) == Count(sb, typ, n)
  {
    if n > 0 {
      SameCounts(sa, sb, typ, n - 1);
    }
  }

  lemma SameTokens(sa: seq<Span>, sb: seq<Span>)
    requires |sa| == |sb| && forall i :: 0 <= i < |sa| ==> sa[i].typ == sb[i].typ
    ensures TokenKeys(sa) == TokenKeys(sb)
  {
    hide Placeholder;
    forall i | 0 <= i < |sa| ensures TokenKeys(sa)[i] == TokenKeys(sb)[i] {
      SameCounts(sa, sb, sa[i].typ, i + 1);
    }
  }

  /** Secrecy of `Mask`: texts that differ only in their masked parts are masked alike. */
  lemma TokensHide(a: string, sa: seq<Span>, b: string, sb: seq<Span>)
    requires Fits(sa, |a|) && Fits(sb, |b|) && SameOutside(a, sa, b, sb)
    ensures TokenMasked(a, sa) == TokenMasked(b, sb)
  {
    hide Woven, Fits;
    SameTokens(sa, sb);
    MaskedPartsHidden(a, sa, b, sb, TokenKeys(sa));
  }

  lemma SameAttempts(a: string, sa: seq<Span>, b: string, sb: seq<Span>, i: nat)
    requires Fits(sa, |a|) && Fits(sb, |b|) && SameOutside(a, sa, b, sb)
    requires Kinds(a, sa) == Kinds(b, sb) && i < |sa|
    ensures SpanAttempts(a, sa, i) == SpanAttempts(b, sb, i)
  {
    hide KindOf;
    SameCounts(sa, sb, sa[i].typ, i + 1);
    assert Kinds(a, sa)[i] == Kinds(b, sb)[i];
  }

  /** The fakes of two such texts are the same when each span is served by the same generator. */
  lemma SameRuns(a: string, sa: seq<Span>, b: string, sb: seq<Span>, keys: seq<string>)
    requires Fits(sa, |a|) && Fits(sb, |b|) && SameOutside(a, sa, b, sb)
    requires Kinds(a, sa) == Kinds(b, sb) && |keys| <= |sa| && SynthRun(a, sa, keys)
    ensures |keys| <= |sb| && SynthRun(b, sb, keys)
  {
    hide SpanAttempts, FirstFresh, Fits, Gap, Kinds;
    forall i | 0 <= i < |keys| ensures FirstFresh(SpanAttempts(b, sb, i), Values(keys[..i]), keys[i]) {
      SameAttempts(a, sa, b, sb, i);
    }
  }

  /**
   Secrecy of `MaskSynthetic`: of a masked part only its generator shows, that is whether a
   name has one, two or more words and whether an address is a number of how many digits.
   */
  lemma FakesHide(
    a: string, sa: seq<Span>, ka: seq<string>, ma: string, fa: map<string, string>,
    b: string, sb: seq<Span>, kb: seq<string>, mb: string, fb: map<string, string>)
    requires Fits(sa, |a|) && Fits(sb, |b|) && SameOutside(a, sa, b, sb) && Kinds(a, sa) == Kinds(b, sb)
    requires FakedBy(a, sa, ka, ma, fa) && FakedBy(b, sb, kb, mb, fb)
    ensures ma == mb && ka == kb
  {
    hide SynthRun, Fits, Gap, Woven, Kinds;
    SameRuns(a, sa, b, sb, ka);
    SynthRunUnique(b, sb, ka, kb);
    MaskedPartsHidden(a, sa, b, sb, ka);
  }

  /** Every fake of a text has the shape of its span's type, for a number from the span's own count on. */
  lemma FakesShaped(input: string, spans: seq<Span>, keys: seq<string>, i: nat) returns (a: nat)
    requires Fits(spans, |input|) && |keys| <= |spans| && SynthRun(input, spans, keys) && i < |keys|
    ensures ShapedFirst(
      spans[i].typ, Original(input, spans, i), Count(spans, spans[i].typ, i + 1), Values(keys[..i]), a, keys[i])
  {
    hide Shaped, KindOf, Fake, FirstFresh;
    assert FirstFresh(SpanAttempts(input, spans, i), Values(keys[..i]), keys[i]);
    a := FirstIsShaped(spans[i].typ, Original(input, spans, i), Count(spans, spans[i].typ, i + 1),
                       Values(keys[..i]), keys[i]);
  }

  // ----- what a first call of the service answers -----

  /** The answer to a first payload, tokens: unmasked text unchanged, placeholders in place of the spans. */
  lemma TokensAnswer(e: Engine, payload: string, opts: Options, issued: Issued) returns (spans: seq<Span>)
    requires Sound(e, payload) && opts.strategy.TokenStrategy? && IsForward(e, payload, opts, issued)
    ensures SpansOf(e, payload, opts.allowed, spans) && Fits(spans, |payload|)
    ensures Rewritten(payload, spans, TokenKeys(spans), issued.masked)
  {
    hide Rewritten, Kept, TokenKeys, TokenMasked, TokenMapping;
    spans :| SpansOf(e, payload, opts.allowed, spans) && IssuedBy(opts.strategy, payload, spans, issued);
    SpansOfFit(e, payload, opts.allowed, spans);
    TokensStand(payload, spans);
  }

  lemma SpansOfFit(e: Engine, payload: string, allowed: Option<set<string>>, spans: seq<Span>)
    requires Sound(e, payload) && SpansOf(e, payload, allowed, spans)
    ensures Fits(spans, |payload|)
  {
  }

  /** The same for fakes. */
  lemma FakesAnswer(e: Engine, payload: string, opts: Options, issued: Issued)
    returns (spans: seq<Span>, keys: seq<string>)
    requires Sound(e, payload) && opts.strategy.SyntheticStrategy? && IsForward(e, payload, opts, issued)
    ensures SpansOf(e, payload, opts.allowed, spans) && Fits(spans, |payload|)
    ensures |keys| == |spans| && SynthRun(payload, spans, keys) && Rewritten(payload, spans, keys, issued.masked)
  {
    hide Rewritten, Kept, SynthRun;
    spans :| SpansOf(e, payload, opts.allowed, spans) && IssuedBy(opts.strategy, payload, spans, issued);
    SpansOfFit(e, payload, opts.allowed, spans);
    keys :| FakedBy(payload, spans, keys, issued.masked, issued.mapping);
    FakesStand(payload, spans, keys, issued.masked, issued.mapping);
  }

  /** Whatever the sort does, the detectors leave the same text unmasked in both payloads. */
  ghost predicate DifferInside(e: Engine, a: string, b: string, allowed: Option<set<string>>)
    requires Sound(e, a) && Sound(e, b)
  {
    forall sa, sb :: SpansOf(e, a, allowed, sa) && SpansOf(e, b, allowed, sb) ==>
      Fits(sa, |a|) && Fits(sb, |b|) && SameOutside(a, sa, b, sb)
  }

  /** And the masked parts are served by the same generators. */
  ghost predicate SameGenerators(e: Engine, a: string, b: string, allowed: Option<set<string>>)
    requires Sound(e, a) && Sound(e, b)
  {
    forall sa, sb :: SpansOf(e, a, allowed, sa) && SpansOf(e, b, allowed, sb) ==>
      Fits(sa, |a|) && Fits(sb, |b|) && Kinds(a, sa) == Kinds(b, sb)
  }

  /** Two first payloads that differ only in what is masked get the same answer. */
  lemma AnswersHide(e: Engine, a: string, b: string, opts: Options, ia: Issued, ib: Issued)
    requires Sound(e, a) && Sound(e, b) && DifferInside(e, a, b, opts.allowed)
    requires IsForward(e, a, opts, ia) && IsForward(e, b, opts, ib)
    requires opts.strategy.TokenStrategy? || (opts.strategy.SyntheticStrategy? && SameGenerators(e, a, b, opts.allowed))
    ensures ia.masked == ib.masked
  {
    hide SpansOf, SameOutside, Fits, Kinds, SynthRun, Woven, TokenMasked, TokenMapping;
    var sa :| SpansOf(e, a, opts.allowed, sa) && IssuedBy(opts.strategy, a, sa, ia);
    var sb :| SpansOf(e, b, opts.allowed, sb) && IssuedBy(opts.strategy, b, sb, ib);
    if opts.strategy.TokenStrategy? {
      TokensHide(a, sa, b, sb);
    } else {
      var ka :| FakedBy(a, sa, ka, ia.masked, ia.mapping);
      var kb :| FakedBy(b, sb, kb, ib.masked, ib.mapping);
      FakesHide(a, sa, ka, ia.masked, ia.mapping, b, sb, kb, ib.masked, ib.mapping);
    }
  }
}
