/** Demasking undoes masking: when exactly, for placeholders, fakes and asterisks. */
module RoundTrips {
  import opened Common
  import opened Decimal
  import opened Spans
  import opened Replacer
  import opened Runes
  import opened Tokens
  import opened Fakes
  import opened Retry
  import opened Weaving
  import opened Maskers

  // ----- tokens -----

  /** All keys are tokens, and no two are the same. */
  ghost predicate TokenCut(ps: seq<Piece>) {
    DistinctKeys(ps) && forall i :: 0 <= i < |ps| ==> IsToken(ps[i].key)
  }

  lemma TokenPiecesCut(input: string, spans: seq<Span>)
    requires Fits(spans, |input|) && TypesBracketFree(spans)
    ensures TokenCut(TokenPieces(input, spans))
  {
    var ps, keys := TokenPieces(input, spans), TokenKeys(spans);
    hide TokenPieces, TokenKeys;
    TokenKeysAreTokens(spans);
    forall i, j | 0 <= i < j < |ps| ensures ps[i].key != ps[j].key {
      TokenKeysDistinct(spans, i, j);
    }
    forall i | 0 <= i < |ps| ensures IsToken(ps[i].key) {
      assert keys[i] in keys;
    }
  }

  /** One entry per piece, under its own token. */
  lemma TokenMapFacts(ps: seq<Piece>)
    requires TokenCut(ps)
    ensures TokenMap(MappingOf(ps)) && Maps(ps, MappingOf(ps)) && |MappingOf(ps)| == |ps|
  {
    hide IsToken;
    MappingEntries(ps);
    forall k | k in MappingOf(ps) ensures IsToken(k) {
      MappingDomain(ps, k);
    }
  }

  /** The mapping `Mask` returns has one entry per span and, for each type, exactly the keys `[T_1]` to `[T_n]`. */
  lemma TokenMappingExact(input: string, spans: seq<Span>, typ: string, k: nat)
    requires Fits(spans, |input|) && TypesBracketFree(spans)
    ensures |TokenMapping(input, spans)| == |spans|
    ensures Placeholder(typ, k) in TokenMapping(input, spans) <==> 1 <= k <= Count(spans, typ, |spans|)
    ensures forall i :: 0 <= i < |spans| ==>
      TokenKeys(spans)[i] in TokenMapping(input, spans)
      && TokenMapping(input, spans)[TokenKeys(spans)[i]] == Original(input, spans, i)
  {
    hide Placeholder, TokenKeys;
    var ps := TokenPieces(input, spans);
    TokenPiecesCut(input, spans);
    TokenMapFacts(ps);
    MappingDomain(ps, Placeholder(typ, k));
    TokenKeysExact(spans, typ, k);
  }

  /** The text with every gap and the tail demasked on its own. */
  function GapsDemasked(m: map<string, string>, ps: seq<Piece>, tail: string): string {
    if ps == [] then Replace(m, tail)
    else Replace(m, ps[0].gap) + ps[0].original + GapsDemasked(m, ps[1..], tail)
  }

  /** Whatever the text holds, demasking restores every span and demasks each gap on its own. */
  lemma {:induction false} TokenDemask(m: map<string, string>, ps: seq<Piece>, tail: string)
    requires TokenMap(m) && Maps(ps, m)
    ensures Replace(m, Woven(ps, tail)) == GapsDemasked(m, ps, tail)
  {
    if ps != [] {
      hide IsToken, TokenMap;
      var rest := Woven(ps[1..], tail);
      assert ps[0].key in m;
      DemaskCompositional(m, ps[0].gap, ps[0].key, rest);
      Associative(ps[0].gap, ps[0].key, rest);
      TokenDemask(m, ps[1..], tail);
    }
  }

  /** Some key of `m` occurs in `text`. */
  ghost predicate TokenIn(m: map<string, string>, text: string) {
    exists k :: k in m && Occurs(k, text)
  }

  /** No key of `m` occurs in a gap or in the tail. */
  ghost predicate GapsTokenFree(m: map<string, string>, ps: seq<Piece>, tail: string) {
    (forall i :: 0 <= i < |ps| ==> !TokenIn(m, ps[i].gap)) && !TokenIn(m, tail)
  }

  lemma {:induction false} CleanGapsDemasked(m: map<string, string>, ps: seq<Piece>, tail: string)
    requires GapsTokenFree(m, ps, tail)
    ensures GapsDemasked(m, ps, tail) == Plain(ps, tail)
  {
    hide Replace;
    if ps == [] {
      UntouchedText(m, tail);
    } else {
      UntouchedText(m, ps[0].gap);
      CleanGapsDemasked(m, ps[1..], tail);
      Associative(ps[0].gap, ps[0].original, Plain(ps[1..], tail));
    }
  }

  /**
   Token round trip: `Demask` restores the text whenever no issued placeholder occurs in
   the unmasked gaps. The masked parts may hold anything, placeholders included.
   */
  lemma TokenRoundTrip(input: string, spans: seq<Span>)
    requires Fits(spans, |input|) && TypesBracketFree(spans)
    requires GapsTokenFree(TokenMapping(input, spans), TokenPieces(input, spans), Tail(input, spans))
    ensures Replace(TokenMapping(input, spans), TokenMasked(input, spans)) == input
  {
    var ps, tail := TokenPieces(input, spans), Tail(input, spans);
    TokenPiecesCut(input, spans);
    TokenMapFacts(ps);
    TokenDemask(MappingOf(ps), ps, tail);
    CleanGapsDemasked(MappingOf(ps), ps, tail);
    PlainIsInput(input, spans, TokenKeys(spans));
  }

  /** No masked text contains an opening bracket. */
  ghost predicate OriginalsWithoutOpen(ps: seq<Piece>) {
    forall i :: 0 <= i < |ps| ==> '[' !in ps[i].original
  }

  lemma TokenValuesWithoutOpen(ps: seq<Piece>)
    requires TokenCut(ps) && OriginalsWithoutOpen(ps)
    ensures ValuesWithoutOpen(MappingOf(ps))
  {
    hide IsToken;
    TokenMapFacts(ps);
    forall k | k in MappingOf(ps) ensures '[' !in MappingOf(ps)[k] {
      MappingDomain(ps, k);
    }
  }

  /** The opening brackets of the text, and of what demasking makes of it, part by part. */
  lemma OpensParts(m: map<string, string>, ps: seq<Piece>, tail: string)
    requires ps != []
    ensures Opens(Plain(ps, tail)) == Opens(ps[0].gap) + Opens(ps[0].original) + Opens(Plain(ps[1..], tail))
    ensures Opens(GapsDemasked(m, ps, tail)) ==
      Opens(Replace(m, ps[0].gap)) + Opens(ps[0].original) + Opens(GapsDemasked(m, ps[1..], tail))
  {
    hide Opens, Replace;
    var g, o := ps[0].gap, ps[0].original;
    OpensConcat(g, o + Plain(ps[1..], tail));
    OpensConcat(o, Plain(ps[1..], tail));
    OpensConcat(Replace(m, g) + o, GapsDemasked(m, ps[1..], tail));
    OpensConcat(Replace(m, g), o);
  }

  /** Demasking never adds opening brackets, and drops one if a placeholder occurs in a gap. */
  lemma {:induction false} DemaskLosesOpens(m: map<string, string>, ps: seq<Piece>, tail: string)
    requires TokenMap(m) && ValuesWithoutOpen(m)
    ensures Opens(GapsDemasked(m, ps, tail)) <= Opens(Plain(ps, tail))
    ensures !GapsTokenFree(m, ps, tail) ==> Opens(GapsDemasked(m, ps, tail)) < Opens(Plain(ps, tail))
  {
    hide TokenMap, ValuesWithoutOpen, Opens, Replace, Occurs;
    if ps == [] {
      ReplaceLosesOpens(m, tail);
    } else {
      ReplaceLosesOpens(m, ps[0].gap);
      DemaskLosesOpens(m, ps[1..], tail);
      OpensParts(m, ps, tail);
      if !GapsTokenFree(m, ps, tail) && !TokenIn(m, ps[0].gap) {
        GapsTokenFreeTail(m, ps, tail);
      }
    }
  }

  lemma GapsTokenFreeTail(m: map<string, string>, ps: seq<Piece>, tail: string)
    requires ps != [] && !TokenIn(m, ps[0].gap) && !GapsTokenFree(m, ps, tail)
    ensures !GapsTokenFree(m, ps[1..], tail)
  {
    hide TokenIn;
    if GapsTokenFree(m, ps[1..], tail) {
      forall i | 0 <= i < |ps| ensures !TokenIn(m, ps[i].gap) {
        assert i > 0 ==> ps[i] == ps[1..][i - 1];
      }
    }
  }

  /**
   When no masked text contains an opening bracket the condition is exact: the text is
   restored if and only if no issued placeholder occurs in the unmasked gaps.
   */
  lemma TokenRoundTripExact(input: string, spans: seq<Span>)
    requires Fits(spans, |input|) && TypesBracketFree(spans) && OriginalsWithoutOpen(TokenPieces(input, spans))
    ensures Replace(TokenMapping(input, spans), TokenMasked(input, spans)) == input <==>
      GapsTokenFree(TokenMapping(input, spans), TokenPieces(input, spans), Tail(input, spans))
  {
    var ps, tail := TokenPieces(input, spans), Tail(input, spans);
    var m := MappingOf(ps);
    if GapsTokenFree(m, ps, tail) {
      TokenRoundTrip(input, spans);
    } else {
      TokenPiecesCut(input, spans);
      TokenMapFacts(ps);
      TokenValuesWithoutOpen(ps);
      TokenDemask(m, ps, tail);
      DemaskLosesOpens(m, ps, tail);
      PlainIsInput(input, spans, TokenKeys(spans));
    }
  }

  // ----- fakes -----

  /** No fake is issued twice. */
  lemma RunDistinct(input: string, spans: seq<Span>, keys: seq<string>)
    requires Fits(spans, |input|) && |keys| <= |spans| && SynthRun(input, spans, keys)
    ensures forall i, j :: 0 <= i < j < |keys| ==> keys[i] != keys[j]
  {
    hide SpanAttempts;
    forall i, j | 0 <= i < j < |keys| ensures keys[i] != keys[j] {
      assert keys[..j][i] in keys[..j];
      assert FirstFresh(SpanAttempts(input, spans, j), Values(keys[..j]), keys[j]);
    }
  }

  lemma SynthKeysDistinct(input: string, spans: seq<Span>, keys: seq<string>)
    requires Fits(spans, |input|) && |keys| == |spans| && SynthRun(input, spans, keys)
    ensures DistinctKeys(Pieces(input, spans, keys))
  {
    RunDistinct(input, spans, keys);
  }

  lemma NamesNonEmpty(kind: Kind, typ: string, counter: nat, n: nat)
    requires kind in {LastOnly, LastFirst, FullName, CardHolder, Street, Citizenship, Birthplace}
    ensures Fake(kind, typ, counter, n) != []
  {
  }

  lemma FakeNonEmpty(kind: Kind, typ: string, counter: nat, n: nat)
    ensures Fake(kind, typ, counter, n) != []
  {
    if kind in {LastOnly, LastFirst, FullName, CardHolder, Street, Citizenship, Birthplace} {
      NamesNonEmpty(kind, typ, counter, n);
    } else {
      hide Pad, CardFull, CappedPow10;
    }
  }

  lemma SynthKeyNonEmpty(input: string, spans: seq<Span>, keys: seq<string>, i: nat)
    requires Fits(spans, |input|) && |keys| == |spans| && SynthRun(input, spans, keys) && i < |keys|
    ensures keys[i] != []
  {
    hide Fake;
    var typ := spans[i].typ;
    var kind, counter := KindOf(typ, Original(input, spans, i)), Count(spans, typ, i + 1);
    var a: nat :| FirstFreshAt(SpanAttempts(input, spans, i), Values(keys[..i]), a, keys[i]);
    FakeNonEmpty(kind, typ, counter, counter + a);
  }

  /** The mapping `MaskSynthetic` returns has one entry per span and gives back its text. */
  lemma SynthMappingFacts(input: string, spans: seq<Span>, keys: seq<string>)
    requires Fits(spans, |input|) && |keys| == |spans| && SynthRun(input, spans, keys)
    ensures var ps := Pieces(input, spans, keys);
      && |MappingOf(ps)| == |spans| && Maps(ps, MappingOf(ps))
      && forall i :: 0 <= i < |ps| ==> ps[i].key != []
  {
    var ps := Pieces(input, spans, keys);
    SynthKeysDistinct(input, spans, keys);
    MappingEntries(ps);
    forall i | 0 <= i < |ps| ensures ps[i].key != [] {
      SynthKeyNonEmpty(input, spans, keys, i);
    }
  }

  /**
   Synthetic round trip: `Demask` restores the text whenever no fake matches the masked
   text at any position of an unmasked gap and no longer fake matches where one was
   inserted; and exactly then, if a fake that matches by accident always stands for
   something else than what the text has there.
   */
  lemma SyntheticRoundTrip(input: string, spans: seq<Span>, keys: seq<string>)
    requires Fits(spans, |input|) && |keys| == |spans| && SynthRun(input, spans, keys)
    ensures var ps, tail := Pieces(input, spans, keys), Tail(input, spans);
      && (Restorable(MappingOf(ps), ps, tail) ==> Replace(MappingOf(ps), Woven(ps, tail)) == input)
      && (AccidentsVisible(MappingOf(ps), ps, tail) ==>
            (Replace(MappingOf(ps), Woven(ps, tail)) == input <==> Restorable(MappingOf(ps), ps, tail)))
  {
    hide SynthRun, Restorable, AccidentsVisible, Replace;
    var ps, tail := Pieces(input, spans, keys), Tail(input, spans);
    SynthMappingFacts(input, spans, keys);
    PlainIsInput(input, spans, keys);
    if Restorable(MappingOf(ps), ps, tail) {
      TextRestored(MappingOf(ps), ps, tail);
    }
    if AccidentsVisible(MappingOf(ps), ps, tail) {
      TextRestoredExact(MappingOf(ps), ps, tail);
    }
  }

  lemma SynthRunPrefix(input: string, spans: seq<Span>, keys: seq<string>, k: nat)
    requires Fits(spans, |input|) && k <= |keys| <= |spans| && SynthRun(input, spans, keys)
    ensures SynthRun(input, spans, keys[..k])
  {
    hide FirstFresh, SpanAttempts;
    forall i | 0 <= i < k
      ensures FirstFresh(SpanAttempts(input, spans, i), Values(keys[..k][..i]), keys[..k][i])
    {
      assert keys[..k][..i] == keys[..i];
    }
  }

  /** The fakes of a text are determined: two runs choose the same ones. */
  lemma {:induction false} SynthRunUnique(input: string, spans: seq<Span>, a: seq<string>, b: seq<string>)
    requires Fits(spans, |input|) && |a| == |b| <= |spans|
    requires SynthRun(input, spans, a) && SynthRun(input, spans, b)
    ensures a == b
  {
    hide FirstFresh, SpanAttempts;
    if a != [] {
      var k := |a| - 1;
      SynthRunPrefix(input, spans, a, k);
      SynthRunPrefix(input, spans, b, k);
      SynthRunUnique(input, spans, a[..k], b[..k]);
      FirstFreshUnique(SpanAttempts(input, spans, k), Values(a[..k]), a[k], b[k]);
      assert a == a[..k] + [a[k]] && b == b[..k] + [b[k]];
    }
  }

  // ----- asterisks -----

  /** The first `n` pieces of the starred text. */
  function StarPrefix(input: string, spans: seq<Span>, n: nat): string
    requires Fits(spans, |input|) && n <= |spans|
  {
    Woven(Pieces(input, spans, StarKeys(input, spans)[..n]), "")
  }

  lemma StarPrefixStep(input: string, spans: seq<Span>, n: nat)
    requires Fits(spans, |input|) && n < |spans|
    ensures Cursor(spans, n) <= spans[n].start < spans[n].end <= |input|
    ensures StarPrefix(input, spans, n + 1) ==
      StarPrefix(input, spans, n) + input[Cursor(spans, n)..spans[n].start]
      + Starred(input[spans[n].start..spans[n].end])
  {
    hide Woven, StarKeys;
    var keys := StarKeys(input, spans);
    CursorFits(spans, |input|, n);
    assert keys[..n + 1] == keys[..n] + [keys[n]];
    PiecesStep(input, spans, keys[..n], keys[n]);
    WovenStep(Pieces(input, spans, keys[..n]), PieceAt(input, spans, keys[n], n));
    StarKeyAt(input, spans, n);
  }

  lemma StarKeyAt(input: string, spans: seq<Span>, n: nat)
    requires Fits(spans, |input|) && n < |spans|
    ensures StarKeys(input, spans)[n] == Starred(Original(input, spans, n))
  {
  }

  /** How position `p` of the text looks after masking, given the spans up to `n`. */
  ghost predicate StarredRight(input: string, spans: seq<Span>, n: nat, out: string, p: nat)
    requires n <= |spans| && p < |input| && p < |out|
  {
    && (forall j :: 0 <= j < n && spans[j].start <= p < spans[j].end ==>
          out[p] == Star(input[p], p - spans[j].start, spans[j].end - spans[j].start))
    && ((forall j :: 0 <= j < n ==> !(spans[j].start <= p < spans[j].end)) ==> out[p] == input[p])
  }

  lemma StarredNext(input: string, spans: seq<Span>, k: nat, before: string, p: nat)
    requires Fits(spans, |input|) && k < |spans| && Cursor(spans, k) <= spans[k].start < spans[k].end <= |input|
    requires |before| == Cursor(spans, k) && p < spans[k].end
    requires p < |before| ==> StarredRight(input, spans, k, before, p)
    ensures StarredRight(input, spans, k + 1,
      before + input[Cursor(spans, k)..spans[k].start] + Starred(input[spans[k].start..spans[k].end]), p)
  {
    hide Star, Fits;
    SpansEndBefore(spans, |input|, k);
  }

  lemma {:induction false} StarPrefixRight(input: string, spans: seq<Span>, n: nat)
    requires Fits(spans, |input|) && n <= |spans|
    ensures |StarPrefix(input, spans, n)| == Cursor(spans, n) <= |input|
    ensures forall p :: 0 <= p < Cursor(spans, n) ==> StarredRight(input, spans, n, StarPrefix(input, spans, n), p)
  {
    hide StarPrefix, StarredRight, Fits;
    if n == 0 {
      StarPrefixNothing(input, spans);
    } else {
      var k := n - 1;
      StarPrefixRight(input, spans, k);
      StarPrefixStep(input, spans, k);
      forall p | 0 <= p < Cursor(spans, n) ensures StarredRight(input, spans, n, StarPrefix(input, spans, n), p) {
        StarredNext(input, spans, k, StarPrefix(input, spans, k), p);
      }
    }
  }

  lemma StarPrefixNothing(input: string, spans: seq<Span>)
    requires Fits(spans, |input|)
    ensures StarPrefix(input, spans, 0) == ""
  {
  }

  lemma SpansEndBefore(spans: seq<Span>, n: nat, k: nat)
    requires Fits(spans, n) && k <= |spans|
    ensures forall j :: 0 <= j < k ==> spans[j].end <= Cursor(spans, k)
  {
    forall j | 0 <= j < k ensures spans[j].end <= Cursor(spans, k) {
      if j < k - 1 {
        assert spans[k - 1] in spans && spans[j].end < spans[k - 1].start;
      }
    }
  }

  /** A code point that masking leaves: a separator, or an edge of a span longer than four. */
  predicate Survives(c: char, i: nat, len: nat) {
    IsSpace(c) || c in {'-', '.', '@', '+'} || (len > 4 && (i == 0 || i + 1 == len))
  }

  lemma StarMeaning(c: char, i: nat, len: nat)
    ensures Star(c, i, len) == if Survives(c, i, len) then c else '*'
  {
  }

  /**
   `MaskAsterisks` keeps the length. Outside the spans every code point is unchanged;
   inside, only separators and the edges of spans longer than four survive.
   */
  lemma AsterisksPositionwise(input: string, spans: seq<Span>, p: nat)
    requires Fits(spans, |input|) && p < |input|
    ensures |StarMasked(input, spans)| == |input|
    ensures !Covers(spans, p) ==> StarMasked(input, spans)[p] == input[p]
    ensures forall s :: s in spans && s.start <= p < s.end ==>
      StarMasked(input, spans)[p] == if Survives(input[p], p - s.start, s.end - s.start) then input[p] else '*'
  {
    var keys := StarKeys(input, spans);
    assert keys[..|spans|] == keys;
    StarPrefixRight(input, spans, |spans|);
    WovenEnd(Pieces(input, spans, keys), Tail(input, spans));
    CursorFits(spans, |input|, |spans|);
    var out, n := StarPrefix(input, spans, |spans|), Cursor(spans, |spans|);
    assert StarMasked(input, spans) == out + input[n..];
    hide StarPrefix, StarMasked, Star, Survives;
    SpansEndBefore(spans, |input|, |spans|);
    if p < n {
      assert StarredRight(input, spans, |spans|, out, p);
    }
    if !Covers(spans, p) {
      assert forall j :: 0 <= j < |spans| ==> spans[j] in spans;
    }
    forall s | s in spans && s.start <= p < s.end
      ensures StarMasked(input, spans)[p] == if Survives(input[p], p - s.start, s.end - s.start) then input[p] else '*'
    {
      var j :| 0 <= j < |spans| && spans[j] == s;
      StarMeaning(input[p], p - s.start, s.end - s.start);
    }
  }
}
