/**
 Where the promises end: two texts that masking does not give back, when the synthetic
 masker returns at all, and a text on which it does not. Each text is stated for every
 service whose detectors report the spans named here and nothing else, as the shipped
 patterns do.
 */
module Failures {
  import opened Common
  import opened Decimal
  import opened Spans
  import opened Names
  import opened Collect
  import opened Replacer
  import opened Tokens
  import opened Fakes
  import opened Retry
  import opened Synth
  import opened Weaving
  import opened Maskers
  import opened RoundTrips
  import opened Termination
  import opened Service

  /** On this text the detectors report just `found`. */
  ghost predicate Reports(e: Engine, input: string, found: seq<Span>) {
    Sound(e, input) && Candidates(e, input, None) == found
  }

  /** Separated spans are their own normal form. */
  lemma OwnNormalForm(spans: seq<Span>, kept: seq<Span>)
    requires NonEmpty(spans) && Separated(spans) && forall s :: s in spans <==> s in kept
    ensures NormalFormOf(spans, kept)
  {
    forall m | m in spans ensures TypedByWidest(m, kept) {
      forall s | s in kept && s.start == m.start ensures s.end <= m.end {
        var i, j :| 0 <= i < |spans| && 0 <= j < |spans| && spans[i] == m && spans[j] == s;
        assert i == j;
      }
    }
  }

  /** Separated spans of unconditional types are masked as reported, composite masking or not. */
  lemma ReportedSpans(e: Engine, input: string, found: seq<Span>)
    requires Reports(e, input, found) && Separated(found)
    requires forall s :: s in found ==> s.typ !in COMPOSITE_RULES
    ensures SpansOf(e, input, None, found) && Fits(found, |input|)
  {
    hide Candidates;
    forall s ensures s in found <==> s in Kept(e, input, None) {
      InKept(e, input, None, s);
    }
    CandidatesWithin(e, input, None);
    OwnNormalForm(found, Kept(e, input, None));
  }

  lemma {:induction false} NoWords(lex: Lexicon, s: string, i: nat)
    requires i <= |s| && forall c :: !lex.isLetter(c)
    ensures Words(lex, s, i) == []
    decreases |s| - i
  {
    if i < |s| {
      NoWords(lex, s, i + 1);
    }
  }

  /** Any locations of one type can be all that some service reports, whatever the text. */
  lemma SomeEngineReports(input: string, typ: string, locs: seq<Loc>) returns (e: Engine)
    requires LocsWithin(locs, |input|)
    ensures Reports(e, input, Tagged(locs, typ))
  {
    var lex := Lexicon(_ => false, c => c, {}, {}, {}, {}, {}, {});
    e := Engine([Detector(typ, _ => locs)], _ => [], _ => [], _ => [], lex, 2026, 1, false);
    NoWords(lex, input, 0);
    assert e.detectors[1..] == [];
    assert DetectorSpans(e.detectors, input, None) == Tagged(locs, typ);
    JoinedFour(Tagged(locs, typ), [], [], []);
  }

  // ----- tokens -----

  const TEXT_WITH_TOKEN: string := "[EMAIL_1] a@b.ru"

  const ADDRESS_SPANS: seq<Span> := [Span(10, 16, "EMAIL")]

  lemma FirstPlaceholder()
    ensures Placeholder("EMAIL", 1) == "[EMAIL_1]"
  {
    assert Itoa(1) == "1";
  }

  lemma CountFirst(spans: seq<Span>)
    requires spans != []
    ensures Count(spans, spans[0].typ, 1) == 1
  {
    assert Count(spans, spans[0].typ, 0) == 0;
  }

  lemma PlaceholderInGapBreaks(input: string, spans: seq<Span>, j: nat)
    requires Fits(spans, |input|) && TypesBracketFree(spans) && OriginalsWithoutOpen(TokenPieces(input, spans))
    requires j < |spans| && Occurs(TokenKeys(spans)[j], TokenPieces(input, spans)[0].gap)
    ensures Replace(TokenMapping(input, spans), TokenMasked(input, spans)) != input
  {
    hide TokenMasked, Replace, Occurs, MappingOf;
    var ps, m := TokenPieces(input, spans), TokenMapping(input, spans);
    TokenPiecesCut(input, spans);
    TokenMapFacts(ps);
    assert ps[j].key in m;
    assert TokenIn(m, ps[0].gap);
    TokenRoundTripExact(input, spans);
  }

  /** The round trip is not unconditional: a text that already holds an issued placeholder is not restored. */
  lemma TokenRoundTripFails(e: Engine)
    requires Reports(e, TEXT_WITH_TOKEN, ADDRESS_SPANS)
    ensures SpansOf(e, TEXT_WITH_TOKEN, None, ADDRESS_SPANS)
    ensures Fits(ADDRESS_SPANS, |TEXT_WITH_TOKEN|)
    ensures Replace(TokenMapping(TEXT_WITH_TOKEN, ADDRESS_SPANS), TokenMasked(TEXT_WITH_TOKEN, ADDRESS_SPANS))
         != TEXT_WITH_TOKEN
  {
    hide Reports, SpansOf, Placeholder, Replace, TokenMasked, TokenMapping;
    var input, spans := TEXT_WITH_TOKEN, ADDRESS_SPANS;
    ReportedSpans(e, input, spans);
    FirstPlaceholder();
    CountFirst(spans);
    var p := TokenPieces(input, spans)[0];
    assert p.gap == "[EMAIL_1] " && p.original == "a@b.ru";
    assert TokenKeys(spans)[0] == "[EMAIL_1]" && TokenKeys(spans)[0] <= p.gap[0..];
    PlaceholderInGapBreaks(input, spans, 0);
  }

  // ----- fakes -----

  const TEXT_WITH_FAKE: string := "Рязань, место рождения Ян"

  const BIRTHPLACE_SPANS: seq<Span> := [Span(23, 25, "BIRTHPLACE")]

  /** The first fake of a birthplace. */
  lemma FirstBirthplace(original: string)
    ensures FirstFreshAt(Attempts(KindOf("BIRTHPLACE", original), "BIRTHPLACE", 1), {}, 0, "Рязань")
  {
    assert KindOf("BIRTHPLACE", original) == Birthplace;
    assert Fake(Birthplace, "BIRTHPLACE", 1, 1) == "Рязань";
  }

  /** One span behind a text that starts with its fake, and the fake stands for something else. */
  lemma FakeInGapBreaks(m: map<string, string>, p: Piece)
    requires p.key != [] && p.key <= p.gap && m == map[p.key := p.original]
    requires p.original != [] && p.original[0] != p.key[0]
    ensures Replace(m, Woven([p], "")) != Plain([p], "")
  {
    hide Replace;
    assert [p][1..] == [] && Woven([], "") == "" && Plain([], "") == "";
    assert !GapClear(m, p.gap, p.key + "") by {
      assert p.key in m && p.key <= p.gap[0..] + (p.key + "");
    }
    forall i, k | 0 <= i < |p.gap| && k in m && k <= p.gap[i..] + (p.key + "")
      ensures !(m[k] <= p.gap[i..] + (p.original + ""))
    {
      assert (p.gap[i..] + (p.original + ""))[0] == p.gap[i] == (p.gap[i..] + (p.key + ""))[0];
    }
    GapAccidentBreaks(m, p.gap, p.key + "", p.original + "");
  }

  lemma BirthplaceRun(keys: seq<string>)
    requires keys == ["Рязань"] && Fits(BIRTHPLACE_SPANS, |TEXT_WITH_FAKE|)
    ensures SynthRun(TEXT_WITH_FAKE, BIRTHPLACE_SPANS, keys)
  {
    hide KindOf, Fake;
    var input, spans := TEXT_WITH_FAKE, BIRTHPLACE_SPANS;
    CountFirst(spans);
    FirstBirthplace(Original(input, spans, 0));
    assert Values(keys[..0]) == {};
    assert FirstFresh(SpanAttempts(input, spans, 0), Values(keys[..0]), keys[0]);
  }

  /** The round trip is not unconditional: a text that already holds an issued fake is not restored. */
  lemma SyntheticRoundTripFails(e: Engine) returns (masked: string, mapping: map<string, string>)
    requires Reports(e, TEXT_WITH_FAKE, BIRTHPLACE_SPANS)
    ensures SpansOf(e, TEXT_WITH_FAKE, None, BIRTHPLACE_SPANS)
    ensures Fits(BIRTHPLACE_SPANS, |TEXT_WITH_FAKE|)
    ensures IssuedBy(SyntheticStrategy, TEXT_WITH_FAKE, BIRTHPLACE_SPANS, Issued(masked, mapping))
    ensures Replace(mapping, masked) != TEXT_WITH_FAKE
  {
    hide Reports, SpansOf, Replace, SynthRun;
    var input, spans, keys := TEXT_WITH_FAKE, BIRTHPLACE_SPANS, ["Рязань"];
    ReportedSpans(e, input, spans);
    BirthplaceRun(keys);
    var ps, p := Pieces(input, spans, keys), PieceAt(input, spans, keys[0], 0);
    assert p == Piece("Рязань, место рождения ", "Ян", "Рязань");
    assert ps == [p] && ps[..0] == [];
    assert MappingOf([]) == map[];
    assert Tail(input, spans) == "";
    FakeInGapBreaks(MappingOf(ps), p);
    PlainIsInput(input, spans, keys);
    masked, mapping := Woven(ps, ""), MappingOf(ps);
    assert FakedBy(input, spans, keys, masked, mapping);
  }

  // ----- termination -----

  /** For whatever spans the detectors and the sort may give: no pool is used up when it is next needed. */
  ghost predicate EnoughFakes(e: Engine, payload: string, opts: Options)
    requires Sound(e, payload)
  {
    forall spans :: SpansOf(e, payload, opts.allowed, spans) ==>
      Fits(spans, |payload|) && PoolsHold(Kinds(payload, spans))
  }

  /** Whatever the spans: in each pool the generator with more values comes last. */
  ghost predicate WideLast(e: Engine, payload: string, opts: Options)
    requires Sound(e, payload)
  {
    forall spans :: SpansOf(e, payload, opts.allowed, spans) ==>
      Fits(spans, |payload|) && NarrowFirst(Kinds(payload, spans))
  }

  /** The forward step of a synthetic session returns as long as the fakes suffice, and then only. */
  lemma ForwardReturns(e: Engine, payload: string, opts: Options)
    requires Sound(e, payload) && opts.strategy.SyntheticStrategy?
    ensures EnoughFakes(e, payload, opts) ==> Terminates(e, payload, opts)
    ensures WideLast(e, payload, opts) ==> (Terminates(e, payload, opts) <==> EnoughFakes(e, payload, opts))
  {
    hide SpansOf, PoolsHold, NarrowFirst, SynthTerminates, Kinds;
    forall spans | SpansOf(e, payload, opts.allowed, spans)
      ensures Fits(spans, |payload|)
      ensures PoolsHold(Kinds(payload, spans)) ==> SynthTerminates(payload, spans)
      ensures NarrowFirst(Kinds(payload, spans)) && SynthTerminates(payload, spans) ==> PoolsHold(Kinds(payload, spans))
    {
      SpansFit(e, payload, opts.allowed, spans);
      if PoolsHold(Kinds(payload, spans)) {
        PoolsSuffice(payload, spans);
      }
      if NarrowFirst(Kinds(payload, spans)) {
        TerminatesExactly(payload, spans);
      }
    }
  }

  lemma SpansFit(e: Engine, payload: string, allowed: Option<set<string>>, spans: seq<Span>)
    requires Sound(e, payload) && SpansOf(e, payload, allowed, spans)
    ensures Fits(spans, |payload|)
  {
  }

  const FOUR_CITIZENS: string := "гражданин РФ, гражданин РФ, гражданин РФ, гражданин РФ"

  const CITIZENSHIP_SPANS: seq<Span> := [
    Span(10, 12, "CITIZENSHIP"), Span(24, 26, "CITIZENSHIP"), Span(38, 40, "CITIZENSHIP"), Span(52, 54, "CITIZENSHIP")]

  lemma {:induction false} AllServed(kinds: seq<Kind>, kind: Kind, n: nat)
    requires n <= |kinds| && forall i :: 0 <= i < n ==> kinds[i] == kind
    ensures Served(kinds, kind, n) == n
  {
    if n > 0 {
      AllServed(kinds, kind, n - 1);
    }
  }

  lemma CitizenKind(i: nat)
    requires Fits(CITIZENSHIP_SPANS, |FOUR_CITIZENS|) && i < 4
    ensures Kinds(FOUR_CITIZENS, CITIZENSHIP_SPANS)[i] == Citizenship
  {
    assert CITIZENSHIP_SPANS[i].typ == "CITIZENSHIP";
  }

  /** Four citizenships, three fakes. */
  lemma CitizensExhaust()
    requires Fits(CITIZENSHIP_SPANS, |FOUR_CITIZENS|)
    ensures !SynthTerminates(FOUR_CITIZENS, CITIZENSHIP_SPANS)
  {
    hide SynthTerminates, Fits, Kinds;
    var kinds := Kinds(FOUR_CITIZENS, CITIZENSHIP_SPANS);
    forall i | 0 <= i < 4 ensures kinds[i] == Citizenship {
      CitizenKind(i);
    }
    AllServed(kinds, Citizenship, 4);
    if SynthTerminates(FOUR_CITIZENS, CITIZENSHIP_SPANS) {
      PeriodLimits(FOUR_CITIZENS, CITIZENSHIP_SPANS, Citizenship);
      assert false;
    }
  }

  /** The masker does not return on a text with four citizenships, so the request is never answered. */
  lemma FourCitizensHang(e: Engine, opts: Options)
    requires Reports(e, FOUR_CITIZENS, CITIZENSHIP_SPANS)
    requires opts.allowed.None? && opts.strategy.SyntheticStrategy?
    ensures SpansOf(e, FOUR_CITIZENS, None, CITIZENSHIP_SPANS)
    ensures Fits(CITIZENSHIP_SPANS, |FOUR_CITIZENS|) && !SynthTerminates(FOUR_CITIZENS, CITIZENSHIP_SPANS)
    ensures !Terminates(e, FOUR_CITIZENS, opts)
  {
    hide SynthTerminates, Candidates;
    assert opts.allowed == None;
    ReportedSpans(e, FOUR_CITIZENS, CITIZENSHIP_SPANS);
    CitizensExhaust();
  }

  /** There are services that detect just this in the three texts. */
  lemma SuchServicesExist() returns (a: Engine, b: Engine, c: Engine)
    ensures Reports(a, TEXT_WITH_TOKEN, ADDRESS_SPANS)
    ensures Reports(b, TEXT_WITH_FAKE, BIRTHPLACE_SPANS)
    ensures Reports(c, FOUR_CITIZENS, CITIZENSHIP_SPANS)
  {
    hide Reports;
    a := SomeEngineReports(TEXT_WITH_TOKEN, "EMAIL", [Loc(10, 16)]);
    assert Tagged([Loc(10, 16)], "EMAIL") == ADDRESS_SPANS;
    b := SomeEngineReports(TEXT_WITH_FAKE, "BIRTHPLACE", [Loc(23, 25)]);
    assert Tagged([Loc(23, 25)], "BIRTHPLACE") == BIRTHPLACE_SPANS;
    var four := [Loc(10, 12), Loc(24, 26), Loc(38, 40), Loc(52, 54)];
    c := SomeEngineReports(FOUR_CITIZENS, "CITIZENSHIP", four);
    assert Tagged(four, "CITIZENSHIP") == CITIZENSHIP_SPANS;
  }
}
