/**
 What `collectSpans` guarantees about the set of masked positions: it only grows with
 the allowed types, composite masking only shrinks it, every masked type is reported,
 and patronymics are always masked when names are.
 */
module Coverage {
  import opened Common
  import opened Decimal
  import opened Luhn
  import opened Spans
  import opened Names
  import opened Collect

  /** Every type allowed by `a` is allowed by `b`. */
  predicate Narrower(a: Option<set<string>>, b: Option<set<string>>) {
    b.None? || (a.Some? && a.value <= b.value)
  }

  lemma {:induction false} DetectorsMonotone(
    ds: seq<Detector>, input: string, a: Option<set<string>>, b: Option<set<string>>, s: Span)
    requires Narrower(a, b) && s in DetectorSpans(ds, input, a)
    ensures s in DetectorSpans(ds, input, b)
  {
    if s in DetectorSpans(ds[1..], input, a) {
      DetectorsMonotone(ds[1..], input, a, b, s);
    }
  }

  lemma CandidatesMonotone(e: Engine, input: string, a: Option<set<string>>, b: Option<set<string>>, s: Span)
    requires Sound(e, input) && Narrower(a, b) && s in Candidates(e, input, a)
    ensures s in Candidates(e, input, b)
  {
    hide Candidates, FioSpans;
    InCandidates(e, input, a, s);
    InCandidates(e, input, b, s);
    if s in DetectorSpans(e.detectors, input, a) {
      DetectorsMonotone(e.detectors, input, a, b, s);
    }
  }

  lemma KeptMonotone(e: Engine, input: string, a: Option<set<string>>, b: Option<set<string>>, s: Span)
    requires Sound(e, input) && Narrower(a, b) && s in Kept(e, input, a)
    ensures s in Kept(e, input, b)
  {
    InKept(e, input, a, s);
    InKept(e, input, b, s);
    CandidatesMonotone(e, input, a, b, s);
    var ca, cb := Candidates(e, input, a), Candidates(e, input, b);
    var card := e.cards(input) != [];
    forall t | t in Present(ca, card) ensures t in Present(cb, card) {
      if x :| x in ca && x.typ == t {
        CandidatesMonotone(e, input, a, b, x);
      }
    }
  }

  /** Allowing more types keeps every covered position covered, with composite masking on or off. */
  lemma MoreTypesKeepMore(e: Engine, input: string, a: Option<set<string>>, b: Option<set<string>>, p: int)
    requires Sound(e, input) && Narrower(a, b)
    ensures Covers(Kept(e, input, a), p) ==> Covers(Kept(e, input, b), p)
  {
    hide Kept;
    if s :| s in Kept(e, input, a) && s.start <= p < s.end {
      KeptMonotone(e, input, a, b, s);
    }
  }

  /** Allowing more types never unmasks a position, with composite masking on or off. */
  lemma MoreTypesMaskMore(
    e: Engine, input: string, a: Option<set<string>>, b: Option<set<string>>,
    spansA: seq<Span>, spansB: seq<Span>, p: int)
    requires Sound(e, input) && Narrower(a, b)
    requires NormalFormOf(spansA, Kept(e, input, a)) && NormalFormOf(spansB, Kept(e, input, b))
    ensures Covers(spansA, p) ==> Covers(spansB, p)
  {
    hide Kept, Covers;
    MoreTypesKeepMore(e, input, a, b, p);
  }

  /** Composite masking covers no position that is not covered without it. */
  lemma CompositeKeepsLess(e: Engine, input: string, allowed: Option<set<string>>, p: int)
    requires Sound(e, input)
    ensures Covers(Kept(e.(composite := true), input, allowed), p) ==>
      Covers(Kept(e.(composite := false), input, allowed), p)
  {
    hide Kept, Candidates, Keeps;
    var e1, e0 := e.(composite := true), e.(composite := false);
    SameCandidates(e, input, allowed);
    if s :| s in Kept(e1, input, allowed) && s.start <= p < s.end {
      InKept(e1, input, allowed, s);
      InKept(e0, input, allowed, s);
    }
  }

  /** Switching composite masking on never masks a position that is otherwise left alone. */
  lemma CompositeMasksLess(
    e: Engine, input: string, allowed: Option<set<string>>, on: seq<Span>, off: seq<Span>, p: int)
    requires Sound(e, input)
    requires NormalFormOf(on, Kept(e.(composite := true), input, allowed))
    requires NormalFormOf(off, Kept(e.(composite := false), input, allowed))
    ensures Covers(on, p) ==> Covers(off, p)
  {
    hide Kept, Covers;
    CompositeKeepsLess(e, input, allowed, p);
  }

  lemma {:induction false} SameExpiries(e: Engine, d: Engine, es: seq<Expiry>)
    requires e.year == d.year && e.month == d.month
    ensures ExpirySpans(e, es) == ExpirySpans(d, es)
  {
    if es != [] {
      SameExpiries(e, d, es[1..]);
    }
  }

  lemma SameCandidates(e: Engine, input: string, allowed: Option<set<string>>)
    requires Sound(e, input)
    ensures Candidates(e.(composite := true), input, allowed) == Candidates(e.(composite := false), input, allowed)
  {
    SameExpiries(e.(composite := true), e.(composite := false), e.expiries(input));
  }

  lemma CardAnchors(present: set<string>, s: Span)
    ensures Keeps(present, s) <==> s.typ !in {"PIN", "CVV", "CARD_EXP"} || "CARD" in present
  {
    if s.typ in COMPOSITE_RULES {
      assert COMPOSITE_RULES[s.typ] == ["CARD"];
      assert COMPOSITE_RULES[s.typ][0] == "CARD";
    }
  }

  lemma CardPresent(c: seq<Span>, cardLike: bool)
    ensures "CARD" in Present(c, cardLike) <==> cardLike || exists x :: x in c && x.typ == "CARD"
  {
  }

  /**
   Composite masking drops a PIN, CVV or card expiry exactly when the text has neither a
   detected card nor anything that looks like a card number; it drops nothing else.
   */
  lemma CompositeExact(e: Engine, input: string, allowed: Option<set<string>>, s: Span)
    requires Sound(e, input) && e.composite && s in Candidates(e, input, allowed)
    ensures s in Kept(e, input, allowed) <==>
      s.typ !in {"PIN", "CVV", "CARD_EXP"} || e.cards(input) != []
      || exists c :: c in Candidates(e, input, allowed) && c.typ == "CARD"
  {
    var c := Candidates(e, input, allowed);
    InKept(e, input, allowed, s);
    CardAnchors(Present(c, e.cards(input) != []), s);
    CardPresent(c, e.cards(input) != []);
  }

  lemma {:induction false} DetectorTypesAllowed(ds: seq<Detector>, input: string, allowed: Option<set<string>>, s: Span)
    requires s in DetectorSpans(ds, input, allowed)
    ensures Allow(allowed, s.typ)
  {
    if s in DetectorSpans(ds[1..], input, allowed) {
      DetectorTypesAllowed(ds[1..], input, allowed, s);
    }
  }

  /** Only allowed types are reported, and every masked type is. */
  lemma MaskedTypesDetected(
    e: Engine, input: string, allowed: Option<set<string>>, spans: seq<Span>, detected: seq<string>)
    requires Sound(e, input) && NormalFormOf(spans, Kept(e, input, allowed))
    requires forall t :: t in detected <==> exists s :: s in Kept(e, input, allowed) && s.typ == t
    ensures forall m :: m in spans ==> m.typ in detected
    ensures forall t :: t in detected ==> Allow(allowed, t)
    ensures allowed.Some? ==> forall t :: t in detected ==> t in allowed.value
  {
    forall m | m in spans ensures m.typ in detected {
      assert TypedByWidest(m, Kept(e, input, allowed));
    }
    forall t | t in detected ensures Allow(allowed, t) {
      var s :| s in Kept(e, input, allowed) && s.typ == t;
      InKept(e, input, allowed, s);
      InCandidates(e, input, allowed, s);
      if s in DetectorSpans(e.detectors, input, allowed) {
        DetectorTypesAllowed(e.detectors, input, allowed, s);
      } else if Allow(allowed, "FIO") && s in FioSpans(e, input) {
        ScanTypes(e.lexicon, input, s);
      }
    }
  }

  lemma ScanTypes(lex: Lexicon, input: string, s: Span)
    ensures s in Scan(lex, input, AllWords(lex, input), 0) ==> s.typ == "FIO"
  {
    ScanAligned(lex, input, AllWords(lex, input), 0);
  }

  /** Composite masking never drops what the name scanner reports. */
  lemma NameKept(e: Engine, input: string, allowed: Option<set<string>>, s: Span)
    requires Sound(e, input) && Allow(allowed, "FIO")
    requires s in Scan(e.lexicon, input, AllWords(e.lexicon, input), 0)
    ensures s in Kept(e, input, allowed)
  {
    ScanTypes(e.lexicon, input, s);
    InCandidates(e, input, allowed, s);
    InKept(e, input, allowed, s);
  }

  /**
   Every word with a patronymic ending, of at least five letters and not a stop word, is
   masked at each of its positions whenever names are allowed.
   */
  lemma PatronymicMasked(
    e: Engine, input: string, allowed: Option<set<string>>, spans: seq<Span>, k: nat, p: nat)
    requires Sound(e, input) && Allow(allowed, "FIO")
    requires NormalFormOf(spans, Kept(e, input, allowed))
    requires var ws := AllWords(e.lexicon, input);
      && k < |ws| && IsPatronymic(ws[k].low) && ws[k].low !in e.lexicon.stopTokens
      && ws[k].start <= p < ws[k].end
    ensures Covers(spans, p)
  {
    var ws := AllWords(e.lexicon, input);
    PatronymicCovered(e.lexicon, input, k);
    var s :| s in Scan(e.lexicon, input, ws, 0) && Inside(ws[k], s);
    NameKept(e, input, allowed, s);
    assert Covers(Kept(e, input, allowed), p);
  }

  // ----- nothing reported is lost -----

  lemma {:induction false} DetectorMatchFound(
    ds: seq<Detector>, input: string, allowed: Option<set<string>>, i: nat, loc: Loc)
    requires i < |ds| && Allow(allowed, ds[i].typ) && loc in ds[i].find(input)
    ensures Span(loc.start, loc.end, ds[i].typ) in DetectorSpans(ds, input, allowed)
  {
    if i == 0 {
      TaggedHas(ds[0].find(input), ds[0].typ, loc);
      assert Span(loc.start, loc.end, ds[0].typ) in DetectorSpan(ds[0], input, allowed);
    } else {
      DetectorMatchFound(ds[1..], input, allowed, i - 1, loc);
    }
  }

  lemma TaggedHas(locs: seq<Loc>, typ: string, loc: Loc)
    requires loc in locs
    ensures Span(loc.start, loc.end, typ) in Tagged(locs, typ)
  {
    var i :| 0 <= i < |locs| && locs[i] == loc;
    assert Tagged(locs, typ)[i] == Span(loc.start, loc.end, typ);
  }

  /** A card number is known: one was detected, or the text holds something that looks like one. */
  ghost predicate CardKnown(e: Engine, input: string, allowed: Option<set<string>>)
    requires Sound(e, input)
  {
    e.cards(input) != [] || exists c :: c in Candidates(e, input, allowed) && c.typ == "CARD"
  }

  lemma CandidateKept(e: Engine, input: string, allowed: Option<set<string>>, s: Span, p: nat)
    requires Sound(e, input) && s in Candidates(e, input, allowed) && s.start <= p < s.end
    requires e.composite && s.typ in {"PIN", "CVV", "CARD_EXP"} ==> CardKnown(e, input, allowed)
    ensures Covers(Kept(e, input, allowed), p)
  {
    hide Candidates, Keeps, Kept;
    if e.composite {
      CompositeExact(e, input, allowed, s);
    } else {
      InKept(e, input, allowed, s);
    }
  }

  /**
   Every position of every match of an allowed detector is covered by what is merged; with
   composite masking on, a PIN or CVV needs a known card number for that.
   */
  lemma AllowedMatchKept(e: Engine, input: string, allowed: Option<set<string>>, i: nat, loc: Loc, p: nat)
    requires Sound(e, input) && i < |e.detectors| && Allow(allowed, e.detectors[i].typ)
    requires loc in e.detectors[i].find(input) && loc.start <= p < loc.end
    requires e.composite && e.detectors[i].typ in {"PIN", "CVV", "CARD_EXP"} ==> CardKnown(e, input, allowed)
    ensures Covers(Kept(e, input, allowed), p)
  {
    hide Candidates, Kept;
    var s := Span(loc.start, loc.end, e.detectors[i].typ);
    DetectorMatchFound(e.detectors, input, allowed, i, loc);
    InCandidates(e, input, allowed, s);
    CandidateKept(e, input, allowed, s, p);
  }

  lemma {:induction false} CardMatchFound(input: string, locs: seq<Loc>, i: nat, s: Span)
    requires LocsWithin(locs, |input|) && i < |locs| && s in CardSpan(input, locs[i])
    ensures s in CardSpans(input, locs)
  {
    if i > 0 {
      CardMatchFound(input, locs[1..], i - 1, s);
    }
  }

  /** Every digit of every prefix of a card match that is a valid card number is covered. */
  lemma CardMatchKept(e: Engine, input: string, allowed: Option<set<string>>, i: nat, len: nat, p: nat)
    requires Sound(e, input) && Allow(allowed, "CARD") && i < |e.cards(input)|
    requires var loc := e.cards(input)[i];
      && (forall j :: loc.start <= j < loc.end ==> CardChar(input[j]))
      && loc.start + len <= loc.end && ValidCard(input[loc.start..loc.start + len])
      && loc.start <= p < loc.start + len && IsDigit(input[p])
    ensures Covers(Kept(e, input, allowed), p)
  {
    hide Candidates, Kept;
    var loc := e.cards(input)[i];
    CardSpanReaches(input, loc, len, p);
    var s :| s in CardSpan(input, loc) && s.start <= p < s.end;
    CardMatchFound(input, e.cards(input), i, s);
    CardIsCandidate(e, input, allowed, s);
    CandidateKept(e, input, allowed, s, p);
  }

  lemma CardIsCandidate(e: Engine, input: string, allowed: Option<set<string>>, s: Span)
    requires Sound(e, input) && Allow(allowed, "CARD") && s in CardSpans(input, e.cards(input))
    ensures s in Candidates(e, input, allowed)
  {
    InCandidates(e, input, allowed, s);
  }

  lemma CardSpanReaches(input: string, loc: Loc, len: nat, p: nat)
    requires loc.start < loc.end <= |input| && loc.start + len <= loc.end
    requires forall j :: loc.start <= j < loc.end ==> CardChar(input[j])
    requires ValidCard(input[loc.start..loc.start + len]) && loc.start <= p < loc.start + len && IsDigit(input[p])
    ensures exists s :: s in CardSpan(input, loc) && s.start <= p < s.end
  {
    hide ValidCard, LongestCard, Stripped;
    var seg := input[loc.start..loc.end];
    assert seg[..len] == input[loc.start..loc.start + len];
    LongestCardMaximal(seg, len);
    if ValidCard(seg) {
      assert Span(loc.start, loc.end, "CARD") in CardSpan(input, loc);
    } else {
      var end := LongestCard(seg).value;
      var s := Span(loc.start, loc.start + end, "CARD");
      assert s in CardSpan(input, loc);
      DigitsInside(seg, len, end, p - loc.start);
    }
  }

  /** A prefix with at least as many digits contains every digit of the other one. */
  lemma DigitsInside(s: string, a: nat, b: nat, p: nat)
    requires a <= |s| && b <= |s| && |Stripped(s[..a])| <= |Stripped(s[..b])|
    requires p < a && IsDigit(s[p])
    ensures p < b
  {
    if b <= p {
      assert s[..a] == s[..b] + s[b..p] + [s[p]] + s[p + 1..a];
      StrippedConcat(s[..b] + s[b..p] + [s[p]], s[p + 1..a]);
      StrippedSnoc(s[..b] + s[b..p], s[p]);
      StrippedConcat(s[..b], s[b..p]);
      assert false;
    }
  }
}
