/** `Mask`, `MaskSynthetic` and `MaskAsterisks` of internal/service/service.go. */
module Maskers {
  import opened Common
  import opened Spans
  import opened Collect
  import opened Tokens
  import opened Runes
  import opened Fakes
  import opened Retry
  import opened Synth
  import opened Weaving
  import opened Rewriting

  // ----- counters -----

  lemma CountStep(spans: seq<Span>, i: nat, t: string)
    requires i < |spans|
    ensures Count(spans, t, i + 1) == Count(spans, t, i) + (if spans[i].typ == t then 1 else 0)
  {
  }

  /** The per-type counter of span `i`. */
  method Bump(spans: seq<Span>, i: nat, counters: map<string, nat>) returns (next: map<string, nat>)
    requires i < |spans| && CountersAt(spans, i, counters)
    ensures CountersAt(spans, i + 1, next)
    ensures spans[i].typ in next && next[spans[i].typ] == Count(spans, spans[i].typ, i + 1)
  {
    var typ := spans[i].typ;
    next := counters[typ := (if typ in counters then counters[typ] else 0) + 1];
    forall t ensures (if t in next then next[t] else 0) == Count(spans, t, i + 1) {
      CountStep(spans, i, t);
    }
  }

  ghost predicate CountersAt(spans: seq<Span>, i: nat, counters: map<string, nat>)
    requires i <= |spans|
  {
    forall t :: (if t in counters then counters[t] else 0) == Count(spans, t, i)
  }

  // ----- tokens -----

  /** The spans of a text with the placeholders `Mask` puts in their place. */
  function TokenPieces(input: string, spans: seq<Span>): (ps: seq<Piece>)
    requires Fits(spans, |input|)
    ensures |ps| == |spans| && forall i :: 0 <= i < |ps| ==> ps[i].key == TokenKeys(spans)[i]
  {
    Pieces(input, spans, TokenKeys(spans))
  }

  /** The text `Mask` returns. */
  function TokenMasked(input: string, spans: seq<Span>): string
    requires Fits(spans, |input|)
  {
    Woven(TokenPieces(input, spans), Tail(input, spans))
  }

  /** The mapping `Mask` returns. */
  function TokenMapping(input: string, spans: seq<Span>): map<string, string>
    requires Fits(spans, |input|)
  {
    MappingOf(TokenPieces(input, spans))
  }

  /** What the builder, the cursor and the mapping hold once the first `|keys|` spans are done. */
  ghost predicate Written(
    input: string, spans: seq<Span>, keys: seq<string>, masked: string, mapping: map<string, string>, lastIdx: nat)
    requires Fits(spans, |input|) && |keys| <= |spans|
  {
    && lastIdx == Cursor(spans, |keys|)
    && masked == Woven(Pieces(input, spans, keys), "")
    && mapping == MappingOf(Pieces(input, spans, keys))
  }

  /** One turn of a masker's loop. */
  lemma WriteStep(
    input: string, spans: seq<Span>, keys: seq<string>, masked: string, mapping: map<string, string>,
    key: string, gap: string, original: string)
    requires Fits(spans, |input|) && |keys| < |spans|
    requires Written(input, spans, keys, masked, mapping, Cursor(spans, |keys|))
    requires PieceAt(input, spans, key, |keys|) == Piece(gap, original, key)
    ensures Written(input, spans, keys + [key], masked + gap + key, mapping[key := original], spans[|keys|].end)
  {
    var ps, p := Pieces(input, spans, keys), PieceAt(input, spans, key, |keys|);
    PiecesStep(input, spans, keys, key);
    WovenStep(ps, p);
    assert (ps + [p])[..|keys|] == ps;
  }

  lemma WriteStart(input: string, spans: seq<Span>)
    requires Fits(spans, |input|)
    ensures Written(input, spans, [], "", map[], 0)
  {
  }

  /** After the loop the builder takes the rest of the text. */
  lemma WriteEnd(input: string, spans: seq<Span>, keys: seq<string>, masked: string, mapping: map<string, string>)
    requires Fits(spans, |input|) && |keys| == |spans|
    requires Written(input, spans, keys, masked, mapping, Cursor(spans, |spans|))
    ensures masked + Tail(input, spans) == Woven(Pieces(input, spans, keys), Tail(input, spans))
    ensures mapping == MappingOf(Pieces(input, spans, keys))
  {
    WovenEnd(Pieces(input, spans, keys), Tail(input, spans));
  }

  lemma TokenKeyAt(spans: seq<Span>, i: nat)
    requires i < |spans|
    ensures TokenKeys(spans)[..i + 1] ==
      TokenKeys(spans)[..i] + [Placeholder(spans[i].typ, Count(spans, spans[i].typ, i + 1))]
  {
  }

  /** The loop of `Mask`: builder, cursor, per-type counters and reverse mapping. */
  method WriteTokens(input: string, spans: seq<Span>) returns (masked: string, mapping: map<string, string>)
    requires Fits(spans, |input|)
    ensures masked == TokenMasked(input, spans) && mapping == TokenMapping(input, spans)
  {
    hide TokenKeys, Written, Placeholder;
    WriteStart(input, spans);
    ghost var keys := TokenKeys(spans);
    masked, mapping := "", map[];
    var counters: map<string, nat> := map[];
    var lastIdx: nat := 0;
    for i := 0 to |spans|
      invariant CountersAt(spans, i, counters)
      invariant lastIdx == Cursor(spans, i) && Written(input, spans, keys[..i], masked, mapping, lastIdx)
    {
      var span := spans[i];
      CursorFits(spans, |input|, i);
      if span.start < lastIdx {
        assert false; // the skip of already covered spans never fires
      }
      counters := Bump(spans, i, counters);
      var placeholder := Placeholder(span.typ, counters[span.typ]);
      var gap, original := input[lastIdx..span.start], input[span.start..span.end];
      TokenKeyAt(spans, i);
      WriteStep(input, spans, keys[..i], masked, mapping, placeholder, gap, original);
      mapping := mapping[placeholder := original];
      masked := masked + gap + placeholder;
      lastIdx := span.end;
    }
    assert keys[..|spans|] == keys;
    CursorFits(spans, |input|, |spans|);
    WriteEnd(input, spans, keys, masked, mapping);
    masked := masked + input[lastIdx..];
  }

  lemma NothingInEmpty(e: Engine, allowed: Option<set<string>>)
    requires Sound(e, "")
    ensures Kept(e, "", allowed) == []
  {
    KeptWithin(e, "", allowed);
    NothingFits(Kept(e, "", allowed));
  }

  lemma NothingFits(spans: seq<Span>)
    ensures Within(spans, 0) ==> spans == []
  {
    assert spans != [] ==> spans[0] in spans;
  }

  lemma NothingNormal()
    ensures NormalFormOf([], [])
  {
  }

  /** What the three maskers know about the spans they work on. */
  ghost predicate Detected(
    e: Engine, input: string, allowed: Option<set<string>>, spans: seq<Span>, detected: seq<string>)
    requires Sound(e, input)
  {
    && NormalFormOf(spans, Kept(e, input, allowed)) && Within(spans, |input|)
    && forall t :: t in detected <==> exists s :: s in Kept(e, input, allowed) && s.typ == t
  }

  /** Unmasked text unchanged, and in place of each span its placeholder, whatever the text. */
  lemma TokensStand(input: string, spans: seq<Span>)
    requires Fits(spans, |input|)
    ensures Rewritten(input, spans, TokenKeys(spans), TokenMasked(input, spans))
  {
    hide Woven, Rewritten;
    WovenRewritten(input, spans, TokenKeys(spans));
  }

  method FindSpans(e: Engine, input: string, allowed: Option<set<string>>)
    returns (spans: seq<Span>, detected: seq<string>)
    requires Sound(e, input)
    ensures Detected(e, input, allowed, spans, detected)
  {
    hide Kept, NormalFormOf;
    if input == "" {
      NothingInEmpty(e, allowed);
      NothingNormal();
      return [], [];
    }
    spans, detected := CollectSpans(e, input, allowed);
  }

  /** `Mask`: every detected span becomes its placeholder. */
  method Mask(e: Engine, input: string, allowed: Option<set<string>>)
    returns (masked: string, detected: seq<string>, mapping: map<string, string>)
    requires Sound(e, input)
    ensures exists spans ::
      && Detected(e, input, allowed, spans, detected)
      && masked == TokenMasked(input, spans) && mapping == TokenMapping(input, spans)
      && Rewritten(input, spans, TokenKeys(spans), masked)
  {
    hide Detected, TokenMasked, TokenMapping, Rewritten, TokenKeys;
    var spans;
    spans, detected := FindSpans(e, input, allowed);
    DetectedFits(e, input, allowed, spans, detected);
    masked, mapping := WriteTokens(input, spans);
    TokensStand(input, spans);
  }

  lemma DetectedFits(e: Engine, input: string, allowed: Option<set<string>>, spans: seq<Span>, detected: seq<string>)
    requires Sound(e, input) && Detected(e, input, allowed, spans, detected)
    ensures Fits(spans, |input|)
  {
  }

  // ----- synthetic values -----

  /** The attempts for span `i`. */
  function SpanAttempts(input: string, spans: seq<Span>, i: nat): nat -> string
    requires Fits(spans, |input|) && i < |spans|
  {
    var typ := spans[i].typ;
    Attempts(KindOf(typ, Original(input, spans, i)), typ, Count(spans, typ, i + 1))
  }

  /** The values in a sequence. */
  function Values(keys: seq<string>): set<string> {
    set k | k in keys
  }

  lemma ValuesStep(keys: seq<string>, v: string)
    ensures Values(keys + [v]) == Values(keys) + {v}
  {
  }

  /** `keys` are the fakes of the first spans: each the first unused value of its generator. */
  ghost predicate SynthRun(input: string, spans: seq<Span>, keys: seq<string>)
    requires Fits(spans, |input|) && |keys| <= |spans|
  {
    forall i :: 0 <= i < |keys| ==> FirstFresh(SpanAttempts(input, spans, i), Values(keys[..i]), keys[i])
  }

  /** No span's generator runs dry: what the unbounded retry loop needs to terminate. */
  ghost predicate SynthTerminates(input: string, spans: seq<Span>)
    requires Fits(spans, |input|)
  {
    forall keys: seq<string> :: |keys| < |spans| && SynthRun(input, spans, keys) ==>
      FreshExists(SpanAttempts(input, spans, |keys|), Values(keys))
  }

  lemma SynthRunEmpty(input: string, spans: seq<Span>)
    requires Fits(spans, |input|)
    ensures SynthRun(input, spans, [])
  {
  }

  lemma SynthRunSnoc(input: string, spans: seq<Span>, keys: seq<string>, v: string)
    requires Fits(spans, |input|) && |keys| < |spans| && SynthRun(input, spans, keys)
    requires FirstFresh(SpanAttempts(input, spans, |keys|), Values(keys), v)
    ensures SynthRun(input, spans, keys + [v])
  {
    var next := keys + [v];
    forall i | 0 <= i < |next| ensures FirstFresh(SpanAttempts(input, spans, i), Values(next[..i]), next[i]) {
      assert next[..i] == keys[..i];
      if i == |keys| {
        assert next[..i] == keys;
      }
    }
  }

  /** The text and mapping with the fakes `keys` in place of the spans. */
  ghost predicate FakedBy(
    input: string, spans: seq<Span>, keys: seq<string>, masked: string, mapping: map<string, string>)
    requires Fits(spans, |input|)
  {
    && |keys| == |spans| && SynthRun(input, spans, keys)
    && masked == Woven(Pieces(input, spans, keys), Tail(input, spans))
    && mapping == MappingOf(Pieces(input, spans, keys))
  }

  /** The call of `synthValue` for the next span. */
  method NextFake(input: string, spans: seq<Span>, i: nat, counter: nat, used: set<string>, ghost keys: seq<string>)
    returns (fake: string)
    requires Fits(spans, |input|) && i == |keys| < |spans|
    requires counter == Count(spans, spans[i].typ, i + 1) && used == Values(keys)
    requires SynthRun(input, spans, keys) && SynthTerminates(input, spans)
    ensures SynthRun(input, spans, keys + [fake])
  {
    fake := SynthValue(spans[i].typ, Original(input, spans, i), counter, used);
    SynthRunSnoc(input, spans, keys, fake);
  }

  /** The loop of `MaskSynthetic`. */
  method WriteSynthetic(input: string, spans: seq<Span>) returns (masked: string, mapping: map<string, string>)
    requires Fits(spans, |input|) && SynthTerminates(input, spans)
    ensures exists keys :: FakedBy(input, spans, keys, masked, mapping)
  {
    hide FreshExists, SynthRun, Written;
    SynthRunEmpty(input, spans);
    WriteStart(input, spans);
    masked, mapping := "", map[];
    ghost var keys: seq<string> := [];
    var counters: map<string, nat> := map[];
    var used: set<string> := {};
    var lastIdx: nat := 0;
    for i := 0 to |spans|
      invariant CountersAt(spans, i, counters)
      invariant |keys| == i && used == Values(keys) && SynthRun(input, spans, keys)
      invariant lastIdx == Cursor(spans, i) && Written(input, spans, keys, masked, mapping, lastIdx)
    {
      var span := spans[i];
      CursorFits(spans, |input|, i);
      if span.start < lastIdx {
        assert false; // the skip of already covered spans never fires
      }
      counters := Bump(spans, i, counters);
      var fake := NextFake(input, spans, i, counters[span.typ], used, keys);
      var gap, original := input[lastIdx..span.start], input[span.start..span.end];
      WriteStep(input, spans, keys, masked, mapping, fake, gap, original);
      ValuesStep(keys, fake);
      used := used + {fake};
      mapping := mapping[fake := original];
      masked := masked + gap + fake;
      lastIdx := span.end;
      keys := keys + [fake];
    }
    CursorFits(spans, |input|, |spans|);
    WriteEnd(input, spans, keys, masked, mapping);
    masked := masked + input[lastIdx..];
    assert FakedBy(input, spans, keys, masked, mapping);
  }

  /** Unmasked text unchanged, and in place of each span its fake. */
  lemma FakesStand(input: string, spans: seq<Span>, keys: seq<string>, masked: string, mapping: map<string, string>)
    requires Fits(spans, |input|) && FakedBy(input, spans, keys, masked, mapping)
    ensures |keys| == |spans| && Rewritten(input, spans, keys, masked)
  {
    hide Woven, Rewritten, SynthRun;
    WovenRewritten(input, spans, keys);
  }

  /** `MaskSynthetic`: every detected span becomes a fresh fake of its type. */
  method MaskSynthetic(e: Engine, input: string, allowed: Option<set<string>>)
    returns (masked: string, detected: seq<string>, mapping: map<string, string>)
    requires Sound(e, input)
    requires forall s :: NormalFormOf(s, Kept(e, input, allowed)) && Within(s, |input|) ==> SynthTerminates(input, s)
    ensures exists spans, keys ::
      && Detected(e, input, allowed, spans, detected)
      && FakedBy(input, spans, keys, masked, mapping) && Rewritten(input, spans, keys, masked)
  {
    hide SynthTerminates, FakedBy, Rewritten;
    var spans;
    spans, detected := FindSpans(e, input, allowed);
    masked, mapping := WriteSynthetic(input, spans);
    ghost var keys :| FakedBy(input, spans, keys, masked, mapping);
    FakesStand(input, spans, keys, masked, mapping);
    assert Detected(e, input, allowed, spans, detected) && FakedBy(input, spans, keys, masked, mapping);
  }

  // ----- asterisks -----

  /** One masked code point of a span of length `len`, at position `i`. */
  function Star(c: char, i: nat, len: nat): char {
    if IsSpace(c) || c == '-' || c == '.' || c == '@' || c == '+' then c
    else if len > 4 && (i == 0 || i == len - 1) then c
    else '*'
  }

  function Starred(original: string): (r: string)
    ensures |r| == |original|
  {
    seq(|original|, i requires 0 <= i < |original| => Star(original[i], i, |original|))
  }

  function StarKeys(input: string, spans: seq<Span>): (keys: seq<string>)
    requires Fits(spans, |input|)
    ensures |keys| == |spans|
  {
    seq(|spans|, i requires 0 <= i < |spans| => Starred(Original(input, spans, i)))
  }

  /** The text `MaskAsterisks` returns. */
  function StarMasked(input: string, spans: seq<Span>): string
    requires Fits(spans, |input|)
  {
    Woven(Pieces(input, spans, StarKeys(input, spans)), Tail(input, spans))
  }

  /** The inner loop of `MaskAsterisks`, code point by code point. */
  method WriteStars(runes: string) returns (out: string)
    ensures out == Starred(runes)
  {
    out := "";
    for i := 0 to |runes|
      invariant out == Starred(runes)[..i]
    {
      var r := runes[i];
      if IsSpace(r) || r == '-' || r == '.' || r == '@' || r == '+' {
        out := out + [r];
      } else if |runes| > 4 && (i == 0 || i == |runes| - 1) {
        out := out + [r];
      } else {
        out := out + ['*'];
      }
    }
  }

  /** The loop of `MaskAsterisks`. */
  method WriteAsterisks(input: string, spans: seq<Span>) returns (masked: string)
    requires Fits(spans, |input|)
    ensures masked == StarMasked(input, spans)
  {
    hide Starred, Written;
    WriteStart(input, spans);
    ghost var keys := StarKeys(input, spans);
    ghost var mapping: map<string, string> := map[];
    masked := "";
    var lastIdx: nat := 0;
    for i := 0 to |spans|
      invariant lastIdx == Cursor(spans, i) && Written(input, spans, keys[..i], masked, mapping, lastIdx)
    {
      var span := spans[i];
      CursorFits(spans, |input|, i);
      if span.start < lastIdx {
        assert false; // the skip of already covered spans never fires
      }
      var stars := WriteStars(input[span.start..span.end]);
      var gap := input[lastIdx..span.start];
      WriteStep(input, spans, keys[..i], masked, mapping, stars, gap, input[span.start..span.end]);
      assert keys[..i + 1] == keys[..i] + [stars];
      masked := masked + gap + stars;
      mapping := mapping[stars := input[span.start..span.end]];
      lastIdx := span.end;
    }
    assert keys[..|spans|] == keys;
    CursorFits(spans, |input|, |spans|);
    WriteEnd(input, spans, keys, masked, mapping);
    masked := masked + input[lastIdx..];
  }

  /** `MaskAsterisks`: every detected span is starred out; there is no mapping. */
  method MaskAsterisks(e: Engine, input: string, allowed: Option<set<string>>)
    returns (masked: string, detected: seq<string>)
    requires Sound(e, input)
    ensures exists spans :: Detected(e, input, allowed, spans, detected) && masked == StarMasked(input, spans)
  {
    hide Detected, StarMasked;
    var spans;
    spans, detected := FindSpans(e, input, allowed);
    DetectedFits(e, input, allowed, spans, detected);
    masked := WriteAsterisks(input, spans);
  }
}
