/**
 What `collectSpans` takes from its detectors, no more and no less: each candidate is an
 allowed match, a valid card number, an expiry that is not past, or a name.
 */
module Detection {
  import opened Common
  import opened Luhn
  import opened Spans
  import opened Names
  import opened Collect
  import opened Coverage

  /** The options name the type, or name none at all. */
  predicate Wanted(allowed: Option<set<string>>, typ: string) {
    match allowed
    case None => true
    case Some(types) => typ in types
  }

  // ----- patterns -----

  /** A detector of a wanted type matched there. */
  ghost predicate Matched(ds: seq<Detector>, input: string, allowed: Option<set<string>>, s: Span) {
    exists i, loc ::
      && 0 <= i < |ds| && loc in ds[i].find(input)
      && s == Span(loc.start, loc.end, ds[i].typ) && Wanted(allowed, ds[i].typ)
  }

  lemma InTagged(locs: seq<Loc>, typ: string, s: Span)
    ensures s in Tagged(locs, typ) <==> exists loc :: loc in locs && s == Span(loc.start, loc.end, typ)
  {
    if loc :| loc in locs && s == Span(loc.start, loc.end, typ) {
      TaggedHas(locs, typ, loc);
    }
  }

  lemma {:induction false} DetectorsExact(ds: seq<Detector>, input: string, allowed: Option<set<string>>, s: Span)
    ensures s in DetectorSpans(ds, input, allowed) <==> Matched(ds, input, allowed, s)
  {
    hide Tagged;
    if ds != [] {
      DetectorsExact(ds[1..], input, allowed, s);
      InTagged(ds[0].find(input), ds[0].typ, s);
      if Matched(ds[1..], input, allowed, s) {
        var i, loc :| 0 <= i < |ds[1..]| && loc in ds[1..][i].find(input)
          && s == Span(loc.start, loc.end, ds[1..][i].typ) && Wanted(allowed, ds[1..][i].typ);
        assert ds[i + 1] == ds[1..][i];
      }
      if Matched(ds, input, allowed, s) {
        var i, loc :| 0 <= i < |ds| && loc in ds[i].find(input)
          && s == Span(loc.start, loc.end, ds[i].typ) && Wanted(allowed, ds[i].typ);
        assert i > 0 ==> ds[1..][i - 1] == ds[i];
      }
    }
  }

  // ----- expiries -----

  /** Not before the month of the clock, with a two-digit year in this century. */
  predicate NotPast(month: nat, year: nat, nowYear: nat, nowMonth: nat) {
    var full := if year < 100 then 2000 + year else year;
    1 <= month <= 12 && 12 * nowYear + nowMonth <= 12 * full + month
  }

  /** The two-step comparison is that of the months counted from year zero. */
  lemma FutureIsNotPast(month: nat, year: nat, nowYear: nat, nowMonth: nat)
    requires 1 <= nowMonth <= 12
    ensures IsFutureExpiry(month, year, nowYear, nowMonth) <==> NotPast(month, year, nowYear, nowMonth)
  {
  }

  ghost predicate ExpiryFound(e: Engine, es: seq<Expiry>, s: Span) {
    exists x :: x in es && s == Span(x.loc.start, x.loc.end, "CARD_EXP") && NotPast(x.month, x.year, e.year, e.month)
  }

  lemma {:induction false} ExpiriesExact(e: Engine, es: seq<Expiry>, s: Span)
    requires 1 <= e.month <= 12
    ensures s in ExpirySpans(e, es) <==> ExpiryFound(e, es, s)
  {
    if es != [] {
      hide IsFutureExpiry, NotPast;
      ExpiriesExact(e, es[1..], s);
      FutureIsNotPast(es[0].month, es[0].year, e.year, e.month);
      if ExpiryFound(e, es[1..], s) {
        var x :| x in es[1..] && s == Span(x.loc.start, x.loc.end, "CARD_EXP")
          && NotPast(x.month, x.year, e.year, e.month);
        assert x in es;
      }
    }
  }

  // ----- cards -----

  /** `s` is the valid card number of most digits among the prefixes of the match. */
  ghost predicate CardFound(input: string, loc: Loc, s: Span)
    requires loc.start < loc.end <= |input|
  {
    && s.typ == "CARD" && s.start == loc.start && s.start < s.end <= loc.end
    && ValidCard(input[s.start..s.end])
    && (forall end :: loc.start <= end <= loc.end && ValidCard(input[loc.start..end]) ==>
          |Stripped(input[loc.start..end])| <= |Stripped(input[s.start..s.end])|)
  }

  /** Every reported card is a valid number, and a longer one is not to be had. */
  lemma CardSound(input: string, loc: Loc, s: Span)
    requires loc.start < loc.end <= |input| && s in CardSpan(input, loc)
    requires forall j :: loc.start <= j < loc.end ==> CardChar(input[j])
    ensures CardFound(input, loc, s)
  {
    hide ValidCard, LongestCard, Stripped;
    var seg := input[loc.start..loc.end];
    assert seg[..s.end - s.start] == input[s.start..s.end];
    forall end | loc.start <= end <= loc.end && ValidCard(input[loc.start..end])
      ensures |Stripped(input[loc.start..end])| <= |Stripped(input[s.start..s.end])|
    {
      assert seg[..end - loc.start] == input[loc.start..end];
      LongestCardMaximal(seg, end - loc.start);
      StrippedPrefix(seg, end - loc.start);
    }
    LongestCardMaximal(seg, 0);
  }

  lemma {:induction false} CardFrom(input: string, locs: seq<Loc>, s: Span) returns (loc: Loc)
    requires LocsWithin(locs, |input|) && s in CardSpans(input, locs)
    ensures loc in locs && loc.start < loc.end <= |input| && s in CardSpan(input, loc)
  {
    hide CardSpan;
    if s in CardSpan(input, locs[0]) {
      loc := locs[0];
    } else {
      loc := CardFrom(input, locs[1..], s);
    }
  }

  // ----- all of them -----

  /** The name patterns or the name scanner found it. */
  ghost predicate NameFound(e: Engine, input: string, s: Span) {
    || (exists loc :: loc in e.names(input) && s == Span(loc.start, loc.end, "FIO"))
    || s in Scan(e.lexicon, input, AllWords(e.lexicon, input), 0)
  }

  /**
   The candidates are the allowed matches, the card numbers found, the expiries not past and
   the names: these and no others.
   */
  lemma CandidatesExact(e: Engine, input: string, allowed: Option<set<string>>, s: Span)
    requires Sound(e, input) && 1 <= e.month <= 12
    ensures s in Candidates(e, input, allowed) <==>
      || Matched(e.detectors, input, allowed, s)
      || (Wanted(allowed, "CARD") && s in CardSpans(input, e.cards(input)))
      || (Wanted(allowed, "CARD_EXP") && ExpiryFound(e, e.expiries(input), s))
      || (Wanted(allowed, "FIO") && NameFound(e, input, s))
  {
    hide Candidates, Matched, ExpiryFound, CardSpans, ExpirySpans, DetectorSpans, Scan, Tagged;
    InCandidates(e, input, allowed, s);
    DetectorsExact(e.detectors, input, allowed, s);
    ExpiriesExact(e, e.expiries(input), s);
    InTagged(e.names(input), "FIO", s);
  }

  /** Every card candidate from the card pattern is a valid card number of most digits. */
  lemma CardsExact(e: Engine, input: string, s: Span) returns (loc: Loc)
    requires Sound(e, input) && s in CardSpans(input, e.cards(input))
    requires forall loc, j :: loc in e.cards(input) && loc.start <= j < loc.end ==> CardChar(input[j])
    ensures loc in e.cards(input) && loc.start < loc.end <= |input| && CardFound(input, loc, s)
  {
    hide CardSpan, CardSpans, CardFound;
    loc := CardFrom(input, e.cards(input), s);
    CardSound(input, loc, s);
  }

  /** Every position of a name the patterns find is covered by what is merged, composite masking or not. */
  lemma NameMatchKept(e: Engine, input: string, allowed: Option<set<string>>, loc: Loc, p: nat)
    requires Sound(e, input) && Wanted(allowed, "FIO") && loc in e.names(input) && loc.start <= p < loc.end
    ensures Covers(Kept(e, input, allowed), p)
  {
    hide Candidates, Kept, Scan, Tagged;
    var s := Span(loc.start, loc.end, "FIO");
    InTagged(e.names(input), "FIO", s);
    InCandidates(e, input, allowed, s);
    CandidateKept(e, input, allowed, s, p);
  }

  /** Every position of a card expiry that is not past is covered, with a card number known under composite masking. */
  lemma ExpiryMatchKept(e: Engine, input: string, allowed: Option<set<string>>, x: Expiry, p: nat)
    requires Sound(e, input) && 1 <= e.month <= 12 && Wanted(allowed, "CARD_EXP")
    requires x in e.expiries(input) && NotPast(x.month, x.year, e.year, e.month) && x.loc.start <= p < x.loc.end
    requires e.composite ==> CardKnown(e, input, allowed)
    ensures Covers(Kept(e, input, allowed), p)
  {
    hide Candidates, Kept, ExpirySpans, NotPast;
    var s := Span(x.loc.start, x.loc.end, "CARD_EXP");
    ExpiriesExact(e, e.expiries(input), s);
    InCandidates(e, input, allowed, s);
    CandidateKept(e, input, allowed, s, p);
  }
}
