/**
 `collectSpans`, `filterComposite` and `uniqueTypes` of internal/service/service.go.
 The regular expressions are parameters: arbitrary functions that return locations.
 */
module Collect {
  import opened Common
  import opened SortSlice
  import opened Spans
  import opened Luhn
  import opened Names

  /** Where a regular expression matched. */
  datatype Loc = Loc(start: nat, end: nat)

  datatype Detector = Detector(typ: string, find: string -> seq<Loc>)

  /** A card expiry match with its month and year. */
  datatype Expiry = Expiry(loc: Loc, month: nat, year: nat)

  /** The detection side of `Service`, with the calendar month it runs in. */
  datatype Engine = Engine(
    detectors: seq<Detector>,
    cards: string -> seq<Loc>,
    expiries: string -> seq<Expiry>,
    names: string -> seq<Loc>,
    lexicon: Lexicon,
    year: nat,
    month: nat,
    composite: bool
  )

  predicate LocsWithin(locs: seq<Loc>, n: nat) {
    forall i :: 0 <= i < |locs| ==> locs[i].start < locs[i].end <= n
  }

  /** All the matchers return non-empty locations inside `input`. */
  ghost predicate Sound(e: Engine, input: string) {
    && (forall i :: 0 <= i < |e.detectors| ==> LocsWithin(e.detectors[i].find(input), |input|))
    && LocsWithin(e.cards(input), |input|)
    && LocsWithin(e.names(input), |input|)
    && (forall i :: 0 <= i < |e.expiries(input)| ==>
          e.expiries(input)[i].loc.start < e.expiries(input)[i].loc.end <= |input|)
  }

  /** `allow`: no set means every type. */
  predicate Allow(allowed: Option<set<string>>, typ: string) {
    allowed.None? || typ in allowed.value
  }

  // ----- candidates -----

  function Tagged(locs: seq<Loc>, typ: string): (r: seq<Span>)
    ensures forall s :: s in r ==> s.typ == typ
  {
    seq(|locs|, i requires 0 <= i < |locs| => Span(locs[i].start, locs[i].end, typ))
  }

  function DetectorSpan(d: Detector, input: string, allowed: Option<set<string>>): seq<Span> {
    if Allow(allowed, d.typ) then Tagged(d.find(input), d.typ) else []
  }

  function DetectorSpans(ds: seq<Detector>, input: string, allowed: Option<set<string>>): seq<Span> {
    if ds == [] then [] else DetectorSpan(ds[0], input, allowed) + DetectorSpans(ds[1..], input, allowed)
  }

  /** A card match counts as a whole when valid, else up to its longest valid prefix. */
  function CardSpan(input: string, loc: Loc): (r: seq<Span>)
    requires loc.start < loc.end <= |input|
    ensures forall s :: s in r ==> loc.start == s.start < s.end <= loc.end && s.typ == "CARD"
  {
    var seg := input[loc.start..loc.end];
    if ValidCard(seg) then [Span(loc.start, loc.end, "CARD")]
    else match LongestCard(seg)
      case Some(end) => [Span(loc.start, loc.start + end, "CARD")]
      case None => []
  }

  function CardSpans(input: string, locs: seq<Loc>): (r: seq<Span>)
    requires LocsWithin(locs, |input|)
    ensures forall s :: s in r ==> s.start < s.end <= |input| && s.typ == "CARD"
  {
    if locs == [] then [] else CardSpan(input, locs[0]) + CardSpans(input, locs[1..])
  }

  /** `isFutureExpiry`: this month or later, two-digit years in 20YY. */
  predicate IsFutureExpiry(month: nat, year: nat, nowYear: nat, nowMonth: nat) {
    var yy := if year < 100 then year + 2000 else year;
    1 <= month <= 12 && (if yy != nowYear then yy > nowYear else month >= nowMonth)
  }

  function ExpirySpans(e: Engine, es: seq<Expiry>): (r: seq<Span>)
    ensures forall s :: s in r ==> s.typ == "CARD_EXP"
  {
    if es == [] then []
    else
      (if IsFutureExpiry(es[0].month, es[0].year, e.year, e.month)
       then [Span(es[0].loc.start, es[0].loc.end, "CARD_EXP")] else [])
      + ExpirySpans(e, es[1..])
  }

  function FioSpans(e: Engine, input: string): seq<Span> {
    Tagged(e.names(input), "FIO") + Scan(e.lexicon, input, AllWords(e.lexicon, input), 0)
  }

  /** Appending list after list. */
  function Joined(parts: seq<seq<Span>>): seq<Span> {
    if parts == [] then [] else parts[0] + Joined(parts[1..])
  }

  lemma JoinedFour(a: seq<Span>, b: seq<Span>, c: seq<Span>, d: seq<Span>)
    ensures Joined([a, b, c, d]) == a + b + c + d
  {
    assert [a, b, c, d][1..] == [b, c, d] && [b, c, d][1..] == [c, d] && [c, d][1..] == [d] && [d][1..] == [];
    assert Joined([d]) == d + Joined([]) == d;
    assert Joined([c, d]) == c + d;
    assert Joined([b, c, d]) == b + (c + d);
    assert Joined([a, b, c, d]) == a + (b + (c + d));
    Associative(b, c, d);
    Associative(a, b + c, d);
    Associative(a, b, c);
  }

  /** Everything the detectors report for the allowed types, in the order of the source. */
  ghost function Candidates(e: Engine, input: string, allowed: Option<set<string>>): seq<Span>
    requires Sound(e, input)
  {
    Joined([
      DetectorSpans(e.detectors, input, allowed),
      if Allow(allowed, "CARD") then CardSpans(input, e.cards(input)) else [],
      if Allow(allowed, "CARD_EXP") then ExpirySpans(e, e.expiries(input)) else [],
      if Allow(allowed, "FIO") then FioSpans(e, input) else []
    ])
  }

  lemma InCandidates(e: Engine, input: string, allowed: Option<set<string>>, s: Span)
    requires Sound(e, input)
    ensures s in Candidates(e, input, allowed) <==>
      || s in DetectorSpans(e.detectors, input, allowed)
      || (Allow(allowed, "CARD") && s in CardSpans(input, e.cards(input)))
      || (Allow(allowed, "CARD_EXP") && s in ExpirySpans(e, e.expiries(input)))
      || (Allow(allowed, "FIO") && s in FioSpans(e, input))
  {
    hide Allow, FioSpans, DetectorSpans, CardSpans, ExpirySpans;
    JoinedFour(
      DetectorSpans(e.detectors, input, allowed),
      if Allow(allowed, "CARD") then CardSpans(input, e.cards(input)) else [],
      if Allow(allowed, "CARD_EXP") then ExpirySpans(e, e.expiries(input)) else [],
      if Allow(allowed, "FIO") then FioSpans(e, input) else []);
  }

  // ----- composite masking -----

  /** `compositeRules`: conditional types and the anchors one of which must be present. */
  const COMPOSITE_RULES: map<string, seq<string>> := map["PIN" := ["CARD"], "CVV" := ["CARD"], "CARD_EXP" := ["CARD"]]

  /** The types present, with CARD also when the text merely looks like it has a card number. */
  ghost function Present(spans: seq<Span>, cardLike: bool): set<string> {
    (set s | s in spans :: s.typ) + (if cardLike then {"CARD"} else {})
  }

  ghost predicate Keeps(present: set<string>, s: Span) {
    s.typ in COMPOSITE_RULES ==>
      exists i :: 0 <= i < |COMPOSITE_RULES[s.typ]| && COMPOSITE_RULES[s.typ][i] in present
  }

  /** The spans that pass, in order. */
  ghost function Filtered(present: set<string>, spans: seq<Span>): seq<Span> {
    if spans == [] then []
    else
      var last := spans[|spans| - 1];
      Filtered(present, spans[..|spans| - 1]) + (if Keeps(present, last) then [last] else [])
  }

  lemma {:induction false} InFiltered(present: set<string>, spans: seq<Span>, s: Span)
    ensures s in Filtered(present, spans) <==> s in spans && Keeps(present, s)
  {
    if spans != [] {
      assert spans == spans[..|spans| - 1] + [spans[|spans| - 1]];
      InFiltered(present, spans[..|spans| - 1], s);
    }
  }

  method AnchorPresent(present: set<string>, anchors: seq<string>) returns (keep: bool)
    ensures keep <==> exists i :: 0 <= i < |anchors| && anchors[i] in present
  {
    keep := false;
    for i := 0 to |anchors|
      invariant !keep && forall j :: 0 <= j < i ==> anchors[j] !in present
    {
      if anchors[i] in present {
        keep := true;
        break;
      }
    }
  }

  lemma FilteredSnoc(present: set<string>, s: seq<Span>, i: nat)
    requires i < |s|
    ensures Filtered(present, s[..i + 1]) ==
      Filtered(present, s[..i]) + (if Keeps(present, s[i]) then [s[i]] else [])
  {
    assert s[..i + 1][..i] == s[..i];
  }

  /** The first loop of `filterComposite`, and the card-like text as an anchor. */
  method PresentTypes(spans: array<Span>, cardLike: bool) returns (present: set<string>)
    ensures present == Present(spans[..], cardLike)
  {
    ghost var s := spans[..];
    present := {};
    for i := 0 to spans.Length
      invariant present == set x | x in s[..i] :: x.typ
    {
      assert s[..i + 1] == s[..i] + [s[i]];
      present := present + {spans[i].typ};
    }
    assert s[..|s|] == s;
    if "CARD" !in present && cardLike {
      present := present + {"CARD"};
    }
  }

  method KeepSpan(present: set<string>, sp: Span) returns (keep: bool)
    ensures keep == Keeps(present, sp)
  {
    keep := true;
    if sp.typ in COMPOSITE_RULES {
      keep := AnchorPresent(present, COMPOSITE_RULES[sp.typ]);
    }
  }

  /**
   The second loop of `filterComposite` compacts the slice over its own backing array
   (`out := spans[:0]`). The writes never overtake the reads, so the first `n` elements
   are the pure filter of the old contents.
   */
  method Compact(spans: array<Span>, present: set<string>) returns (n: nat)
    modifies spans
    ensures n <= spans.Length
    ensures spans[..n] == Filtered(present, old(spans[..]))
  {
    ghost var s := spans[..];
    n := 0;
    ghost var out: seq<Span> := [];
    for i := 0 to spans.Length
      invariant n == |out| <= i
      invariant forall k :: i <= k < |s| ==> spans[k] == s[k]
      invariant forall k :: 0 <= k < n ==> spans[k] == out[k]
      invariant out == Filtered(present, s[..i])
    {
      var sp := spans[i];
      var keep := KeepSpan(present, sp);
      FilteredSnoc(present, s, i);
      if keep {
        spans[n] := sp;
        n := n + 1;
        out := out + [sp];
      }
    }
    assert s[..|s|] == s;
    assert spans[..n] == out;
  }

  /** `filterComposite`: the slice's first `n` elements are what passes. */
  method FilterComposite(spans: array<Span>, cardLike: bool) returns (n: nat)
    modifies spans
    ensures n <= spans.Length
    ensures spans[..n] == Filtered(Present(old(spans[..]), cardLike), old(spans[..]))
  {
    var present := PresentTypes(spans, cardLike);
    n := Compact(spans, present);
  }

  /** What is left to merge. */
  ghost function Kept(e: Engine, input: string, allowed: Option<set<string>>): seq<Span>
    requires Sound(e, input)
  {
    var c := Candidates(e, input, allowed);
    if e.composite then Filtered(Present(c, e.cards(input) != []), c) else c
  }

  // ----- detected types -----

  /** Go's string order, code point by code point. */
  predicate StringLess(x: string, y: string) {
    if y == [] then false
    else if x == [] then true
    else if x[0] != y[0] then x[0] < y[0]
    else StringLess(x[1..], y[1..])
  }

  /** `x` and `y` agree up to `i`, and there `x` ends first or has the smaller code point. */
  predicate LessAt(x: string, y: string, i: nat) {
    && i <= |x| && i < |y| && x[..i] == y[..i]
    && (i == |x| || x[i] < y[i])
  }

  /** Dictionary order: decided at the first difference, and a proper prefix comes first. */
  lemma {:induction false} StringLessMeans(x: string, y: string)
    ensures StringLess(x, y) <==> exists i: nat :: LessAt(x, y, i)
  {
    if x == [] || y == [] || x[0] != y[0] {
      if x == [] && y != [] {
        assert LessAt(x, y, 0);
      } else if x != [] && y != [] && x[0] < y[0] {
        assert LessAt(x, y, 0);
      }
      if i: nat :| LessAt(x, y, i) {
        if i > 0 {
          LessAtHead(x, y, i);
        }
      }
    } else {
      StringLessMeans(x[1..], y[1..]);
      if i: nat :| LessAt(x[1..], y[1..], i) {
        LessAtNext(x, y, i + 1);
      }
      if i: nat :| LessAt(x, y, i) {
        assert i > 0;
        LessAtNext(x, y, i);
      }
    }
  }

  lemma LessAtHead(x: string, y: string, i: nat)
    requires i > 0 && LessAt(x, y, i)
    ensures x != [] && y != [] && x[0] == y[0]
  {
    assert x[..i][0] == x[0] && y[..i][0] == y[0];
  }

  lemma LessAtNext(x: string, y: string, i: nat)
    requires i > 0 && x != [] && y != [] && x[0] == y[0]
    ensures LessAt(x, y, i) <==> LessAt(x[1..], y[1..], i - 1)
  {
    if i <= |x| && i <= |y| {
      assert x[..i] == [x[0]] + x[1..][..i - 1] && y[..i] == [y[0]] + y[1..][..i - 1];
      assert x[..i][1..] == x[1..][..i - 1] && y[..i][1..] == y[1..][..i - 1];
    }
  }

  lemma {:induction false} StringLessAsymmetric(x: string, y: string)
    ensures StringLess(x, y) ==> !StringLess(y, x)
    ensures x == y || StringLess(x, y) || StringLess(y, x)
  {
    if x != [] && y != [] && x[0] == y[0] {
      StringLessAsymmetric(x[1..], y[1..]);
      assert x == [x[0]] + x[1..] && y == [y[0]] + y[1..];
    }
  }

  lemma {:induction false} StringLessTransitive(x: string, y: string, z: string)
    requires !StringLess(y, x) && !StringLess(z, y)
    ensures !StringLess(z, x)
  {
    if x != [] && y != [] && z != [] && x[0] == y[0] && y[0] == z[0] {
      StringLessTransitive(x[1..], y[1..], z[1..]);
    }
  }

  lemma StringOrder()
    ensures StrictWeakOrder(StringLess)
  {
    forall x, y ensures StringLess(x, y) ==> !StringLess(y, x) {
      StringLessAsymmetric(x, y);
    }
    forall x, y, z | !StringLess(y, x) && !StringLess(z, y) ensures !StringLess(z, x) {
      StringLessTransitive(x, y, z);
    }
  }

  ghost predicate Distinct(s: seq<string>) {
    forall i, j :: 0 <= i < j < |s| ==> s[i] != s[j]
  }

  lemma DistinctMultiset(s: seq<string>)
    ensures Distinct(s) <==> forall x :: multiset(s)[x] <= 1
  {
    if Distinct(s) {
      forall x ensures multiset(s)[x] <= 1 {
        DistinctCount(s, x);
      }
    } else {
      var i, j :| 0 <= i < j < |s| && s[i] == s[j];
      assert s == s[..j] + [s[j]] + s[j + 1..];
      assert s[i] in s[..j];
      assert multiset(s)[s[j]] >= 2;
    }
  }

  lemma {:induction false} DistinctCount(s: seq<string>, x: string)
    requires Distinct(s)
    ensures multiset(s)[x] <= 1
  {
    if s != [] {
      var k := |s| - 1;
      assert s == s[..k] + [s[k]];
      DistinctCount(s[..k], x);
      assert s[k] !in s[..k];
    }
  }

  /** `uniqueTypes`: the types of the spans, each once, in ascending order. */
  method UniqueTypes(spans: seq<Span>) returns (out: seq<string>)
    ensures forall t :: t in out <==> exists s :: s in spans && s.typ == t
    ensures forall i, j :: 0 <= i < j < |out| ==> StringLess(out[i], out[j])
  {
    var seen: set<string> := {};
    var types: seq<string> := [];
    for i := 0 to |spans|
      invariant forall t :: t in seen <==> t in types
      invariant forall t :: t in types <==> exists s :: s in spans[..i] && s.typ == t
      invariant Distinct(types)
    {
      assert spans[..i + 1] == spans[..i] + [spans[i]];
      if spans[i].typ !in seen {
        seen := seen + {spans[i].typ};
        types := types + [spans[i].typ];
      }
    }
    assert spans[..|spans|] == spans;
    var a := new string[|types|](i requires 0 <= i < |types| => types[i]);
    assert a[..] == types;
    StringOrder();
    Sort(a, StringLess);
    out := a[..];
    DistinctMultiset(types);
    DistinctMultiset(out);
    forall t ensures t in out <==> t in types {
      assert t in multiset(out) <==> t in multiset(types);
    }
    forall i, j | 0 <= i < j < |out| ensures StringLess(out[i], out[j]) {
      StringLessAsymmetric(out[i], out[j]);
    }
  }

  // ----- collectSpans -----

  lemma {:induction false} DetectorSpansWithin(ds: seq<Detector>, input: string, allowed: Option<set<string>>)
    requires forall i :: 0 <= i < |ds| ==> LocsWithin(ds[i].find(input), |input|)
    ensures Within(DetectorSpans(ds, input, allowed), |input|)
  {
    if ds != [] {
      DetectorSpansWithin(ds[1..], input, allowed);
    }
  }

  lemma {:induction false} ExpirySpansWithin(e: Engine, es: seq<Expiry>, n: nat)
    requires forall i :: 0 <= i < |es| ==> es[i].loc.start < es[i].loc.end <= n
    ensures Within(ExpirySpans(e, es), n)
  {
    if es != [] {
      ExpirySpansWithin(e, es[1..], n);
    }
  }

  lemma FioSpansWithin(e: Engine, input: string)
    requires LocsWithin(e.names(input), |input|)
    ensures Within(FioSpans(e, input), |input|)
  {
    ScanWithin(e.lexicon, input, AllWords(e.lexicon, input), 0);
  }

  lemma CandidatesWithin(e: Engine, input: string, allowed: Option<set<string>>)
    requires Sound(e, input)
    ensures Within(Candidates(e, input, allowed), |input|)
  {
    hide Candidates, FioSpans, Allow;
    DetectorSpansWithin(e.detectors, input, allowed);
    ExpirySpansWithin(e, e.expiries(input), |input|);
    FioSpansWithin(e, input);
    forall s | s in Candidates(e, input, allowed) ensures s.start < s.end <= |input| {
      InCandidates(e, input, allowed, s);
    }
  }

  lemma InKept(e: Engine, input: string, allowed: Option<set<string>>, s: Span)
    requires Sound(e, input)
    ensures var c := Candidates(e, input, allowed);
      s in Kept(e, input, allowed) <==>
        s in c && (e.composite ==> Keeps(Present(c, e.cards(input) != []), s))
  {
    var c := Candidates(e, input, allowed);
    InFiltered(Present(c, e.cards(input) != []), c, s);
  }

  lemma KeptWithin(e: Engine, input: string, allowed: Option<set<string>>)
    requires Sound(e, input)
    ensures Within(Kept(e, input, allowed), |input|)
  {
    CandidatesWithin(e, input, allowed);
    forall s | s in Kept(e, input, allowed) ensures s.start < s.end <= |input| {
      InKept(e, input, allowed, s);
    }
  }

  /** One card match: the whole of it when valid, else its longest valid prefix. */
  method CollectCard(input: string, loc: Loc) returns (spans: seq<Span>)
    requires loc.start < loc.end <= |input|
    ensures spans == CardSpan(input, loc)
  {
    var seg := input[loc.start..loc.end];
    var valid := IsValidLuhn(seg);
    if valid {
      return [Span(loc.start, loc.end, "CARD")];
    }
    var end, ok := LongestLuhnCard(seg);
    spans := if ok then [Span(loc.start, loc.start + end, "CARD")] else [];
  }

  method CollectCards(input: string, locs: seq<Loc>) returns (spans: seq<Span>)
    requires LocsWithin(locs, |input|)
    ensures spans == CardSpans(input, locs)
  {
    spans := [];
    for i := 0 to |locs|
      invariant spans + CardSpans(input, locs[i..]) == CardSpans(input, locs)
    {
      assert locs[i..][1..] == locs[i + 1..];
      var found := CollectCard(input, locs[i]);
      Associative(spans, found, CardSpans(input, locs[i + 1..]));
      spans := spans + found;
    }
  }

  method CollectExpiries(e: Engine, es: seq<Expiry>) returns (spans: seq<Span>)
    ensures spans == ExpirySpans(e, es)
  {
    spans := [];
    for i := 0 to |es|
      invariant spans + ExpirySpans(e, es[i..]) == ExpirySpans(e, es)
    {
      assert es[i..][1..] == es[i + 1..];
      if IsFutureExpiry(es[i].month, es[i].year, e.year, e.month) {
        spans := spans + [Span(es[i].loc.start, es[i].loc.end, "CARD_EXP")];
      }
    }
  }

  method CollectDetectors(ds: seq<Detector>, input: string, allowed: Option<set<string>>) returns (spans: seq<Span>)
    ensures spans == DetectorSpans(ds, input, allowed)
  {
    spans := [];
    for i := 0 to |ds|
      invariant spans + DetectorSpans(ds[i..], input, allowed) == DetectorSpans(ds, input, allowed)
    {
      assert ds[i..][1..] == ds[i + 1..];
      Associative(spans, DetectorSpan(ds[i], input, allowed), DetectorSpans(ds[i + 1..], input, allowed));
      if Allow(allowed, ds[i].typ) {
        spans := spans + Tagged(ds[i].find(input), ds[i].typ);
      } else {
        assert spans == spans + [];
      }
    }
  }

  /** The first half of `collectSpans`: every allowed detector appends what it finds. */
  method Gather(e: Engine, input: string, allowed: Option<set<string>>) returns (spans: seq<Span>)
    requires Sound(e, input)
    ensures spans == Candidates(e, input, allowed)
  {
    hide Allow, DetectorSpans, CardSpans, ExpirySpans, Joined, Scan;
    var found := CollectDetectors(e.detectors, input, allowed);
    var cards, expiries, names := [], [], [];
    if Allow(allowed, "CARD") {
      cards := CollectCards(input, e.cards(input));
    }
    if Allow(allowed, "CARD_EXP") {
      expiries := CollectExpiries(e, e.expiries(input));
    }
    if Allow(allowed, "FIO") {
      var morph := FindFIOMorph(e.lexicon, input);
      names := Tagged(e.names(input), "FIO") + morph;
    }
    spans := found + cards + expiries + names;
    JoinedFour(found, cards, expiries, names);
  }

  method KeepFound(e: Engine, input: string, allowed: Option<set<string>>) returns (kept: seq<Span>)
    requires Sound(e, input)
    ensures kept == Kept(e, input, allowed)
  {
    var found := Gather(e, input, allowed);
    if !e.composite {
      return found;
    }
    var a := new Span[|found|](i requires 0 <= i < |found| => found[i]);
    assert a[..] == found;
    var n := FilterComposite(a, e.cards(input) != []);
    kept := a[..n];
  }

  /**
   `collectSpans`: the merged spans are the normal form of what the detectors report
   and composite masking keeps, and `detected` lists the types kept.
   */
  method CollectSpans(e: Engine, input: string, allowed: Option<set<string>>)
    returns (spans: seq<Span>, detected: seq<string>)
    requires Sound(e, input)
    ensures NormalFormOf(spans, Kept(e, input, allowed)) && Within(spans, |input|)
    ensures forall t :: t in detected <==> exists s :: s in Kept(e, input, allowed) && s.typ == t
    ensures forall i, j :: 0 <= i < j < |detected| ==> StringLess(detected[i], detected[j])
  {
    KeptWithin(e, input, allowed);
    var kept := KeepFound(e, input, allowed);
    if kept == [] {
      return [], [];
    }
    detected := UniqueTypes(kept);
    var b := new Span[|kept|](i requires 0 <= i < |kept| => kept[i]);
    assert b[..] == kept;
    spans := MergeSpans(b);
    NormalFormWithin(spans, kept, |input|);
  }

  /** Merging does not leave the text. */
  lemma NormalFormWithin(merged: seq<Span>, spans: seq<Span>, n: nat)
    requires NormalFormOf(merged, spans) && Within(spans, n)
    ensures Within(merged, n)
  {
    forall m | m in merged ensures m.start < m.end <= n {
      assert Covers(merged, m.end - 1);
    }
  }
}
