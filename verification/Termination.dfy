/**
 When `MaskSynthetic` returns. The retry loop of `synthValue` has no bound, so a text with
 more spans of a kind than its generator has values keeps the service busy forever. The
 condition is read off the spans: counting, per pool of generators, those that come before.
 */
module Termination {
  import opened Spans
  import opened Tokens
  import opened Fakes
  import opened Retry
  import opened Synth
  import opened FakePools
  import opened Weaving
  import opened Maskers
  import opened RoundTrips

  /** The generator that serves span `i`. */
  function KindAt(input: string, spans: seq<Span>, i: nat): (kind: Kind)
    requires Fits(spans, |input|) && i < |spans|
    ensures kind != Digits(0)
  {
    KindOf(spans[i].typ, Original(input, spans, i))
  }

  /** The generators that serve a text, span by span. */
  function Kinds(input: string, spans: seq<Span>): (kinds: seq<Kind>)
    requires Fits(spans, |input|)
    ensures |kinds| == |spans|
  {
    seq(|spans|, i requires 0 <= i < |spans| => KindAt(input, spans, i))
  }

  /** The generator has finitely many values. Placeholders are numbered and never run out. */
  predicate Limited(kind: Kind) {
    Period(kind).Some? && kind != NoGenerator
  }

  /** How many of the first `n` spans generator `kind` serves. */
  function Served(kinds: seq<Kind>, kind: Kind, n: nat): nat
    requires n <= |kinds|
  {
    if n == 0 then 0 else Served(kinds, kind, n - 1) + (if kinds[n - 1] == kind then 1 else 0)
  }

  /** How many of the first `n` spans get a value that `kind` gives too. */
  function ServedInside(kinds: seq<Kind>, kind: Kind, n: nat): nat
    requires n <= |kinds|
  {
    if n == 0 then 0 else ServedInside(kinds, kind, n - 1) + (if Inside(kinds[n - 1], kind) then 1 else 0)
  }

  /** How many of the first `n` spans a generator of the same pool serves. */
  function ServedByPool(kinds: seq<Kind>, kind: Kind, n: nat): nat
    requires n <= |kinds|
  {
    if n == 0 then 0 else ServedByPool(kinds, kind, n - 1) + (if Pool(kinds[n - 1]) == Pool(kind) then 1 else 0)
  }

  /** Before each span its pool has served fewer spans than the generator has values. */
  ghost predicate PoolsHold(kinds: seq<Kind>) {
    forall i :: 0 <= i < |kinds| && Limited(kinds[i]) ==> ServedByPool(kinds, kinds[i], i) < Period(kinds[i]).value
  }

  /** No span comes after one of its pool whose generator has more values. */
  ghost predicate NarrowFirst(kinds: seq<Kind>) {
    forall j, i :: 0 <= j < i < |kinds| && Pool(kinds[j]) == Pool(kinds[i]) ==> Inside(kinds[j], kinds[i])
  }

  // ----- counting the fakes a generator could give -----

  /** How many of the fakes are values of a generator with values `range`. */
  ghost function Members(keys: seq<string>, range: set<string>): nat {
    if keys == [] then 0
    else Members(keys[..|keys| - 1], range) + (if keys[|keys| - 1] in range then 1 else 0)
  }

  /** One more value makes the common part one larger if it is new and in the range. */
  lemma CommonGrows(values: set<string>, v: string, range: set<string>)
    requires v !in values
    ensures |(values + {v}) * range| == |values * range| + (if v in range then 1 else 0)
  {
    assert (values + {v}) * range == values * range + (if v in range then {v} else {});
  }

  lemma {:induction false} MembersSize(keys: seq<string>, range: set<string>)
    requires forall i, j :: 0 <= i < j < |keys| ==> keys[i] != keys[j]
    ensures |Values(keys) * range| == Members(keys, range)
  {
    if keys == [] {
      assert Values(keys) * range == {};
    } else {
      var k := |keys| - 1;
      assert keys == keys[..k] + [keys[k]];
      MembersSize(keys[..k], range);
      ValuesStep(keys[..k], keys[k]);
      CommonGrows(Values(keys[..k]), keys[k], range);
    }
  }

  /** What the last fake of a run is. */
  lemma LastFake(input: string, spans: seq<Span>, keys: seq<string>) returns (n: nat)
    requires Fits(spans, |input|) && 0 < |keys| <= |spans| && SynthRun(input, spans, keys)
    ensures var i := |keys| - 1;
      keys[i] == Fake(KindAt(input, spans, i), spans[i].typ, Count(spans, spans[i].typ, i + 1), n)
  {
    hide Fake, KindOf;
    var i := |keys| - 1;
    assert FirstFresh(SpanAttempts(input, spans, i), Values(keys[..i]), keys[i]);
    var a: nat :| FirstFreshAt(SpanAttempts(input, spans, i), Values(keys[..i]), a, keys[i]);
    n := Count(spans, spans[i].typ, i + 1) + a;
  }

  /** Of the fakes issued, `kind` could give at least those from inside its range, at most those of its pool. */
  lemma {:induction false} MembersBounds(input: string, spans: seq<Span>, keys: seq<string>, kind: Kind)
    requires Fits(spans, |input|) && |keys| <= |spans| && SynthRun(input, spans, keys)
    requires Limited(kind) && kind != Digits(0)
    ensures ServedInside(Kinds(input, spans), kind, |keys|) <= Members(keys, Range(kind))
    ensures Members(keys, Range(kind)) <= ServedByPool(Kinds(input, spans), kind, |keys|)
  {
    hide SynthRun, Fake, KindAt, Range, Period, Inside, Pool;
    if keys != [] {
      var k := |keys| - 1;
      SynthRunPrefix(input, spans, keys, k);
      MembersBounds(input, spans, keys[..k], kind);
      var n := LastFake(input, spans, keys);
      var served, typ, counter := KindAt(input, spans, k), spans[k].typ, Count(spans, spans[k].typ, k + 1);
      assert Kinds(input, spans)[k] == served;
      LastMember(served, kind, typ, counter, n);
    }
  }

  lemma LastMember(served: Kind, kind: Kind, typ: string, counter: nat, n: nat)
    requires Limited(kind) && kind != Digits(0) && served != Digits(0)
    ensures Inside(served, kind) ==> Fake(served, typ, counter, n) in Range(kind)
    ensures Fake(served, typ, counter, n) in Range(kind) ==> Pool(served) == Pool(kind)
  {
    hide Fake, Range, Period, Pool;
    if Inside(served, kind) {
      InsideRange(served, kind, typ, counter, n);
    }
    if Pool(served) != Pool(kind) {
      OtherPool(served, kind, typ, counter, n);
    }
  }

  /** In the middle of a run the loop stops exactly while fewer fakes than the period are values of the generator. */
  lemma SpanStops(input: string, spans: seq<Span>, keys: seq<string>)
    requires Fits(spans, |input|) && |keys| < |spans| && SynthRun(input, spans, keys)
    requires Limited(KindAt(input, spans, |keys|))
    ensures var kind := KindAt(input, spans, |keys|);
      FreshExists(SpanAttempts(input, spans, |keys|), Values(keys)) <==> Members(keys, Range(kind)) < Period(kind).value
  {
    hide FreshExists, SynthRun, Range, Period, KindOf, Attempts;
    var i := |keys|;
    RunDistinct(input, spans, keys);
    MembersSize(keys, Range(KindAt(input, spans, i)));
    StopsByCount(KindAt(input, spans, i), spans[i].typ, Count(spans, spans[i].typ, i + 1), Values(keys));
  }

  // ----- generators that never run dry -----

  lemma FirstIsFresh(tries: nat -> string, used: set<string>, a: nat, v: string)
    requires FirstFreshAt(tries, used, a, v)
    ensures FreshExists(tries, used)
  {
  }

  /** E-mail addresses never run out. */
  lemma EndlessFresh(input: string, spans: seq<Span>, i: nat, used: set<string>)
    requires Fits(spans, |input|) && i < |spans| && Period(KindAt(input, spans, i)).None?
    ensures FreshExists(SpanAttempts(input, spans, i), used)
  {
    hide Period, KindOf, Fake, FreshExists, FirstFreshAt;
    var typ := spans[i].typ;
    StopsInTime(KindAt(input, spans, i), typ, Count(spans, typ, i + 1), used);
    var a: nat, v :| FirstFreshAt(SpanAttempts(input, spans, i), used, a, v);
    FirstIsFresh(SpanAttempts(input, spans, i), used, a, v);
  }

  /** A numbered placeholder differs from every earlier fake. */
  lemma PlaceholderFresh(input: string, spans: seq<Span>, keys: seq<string>)
    requires Fits(spans, |input|) && |keys| < |spans| && SynthRun(input, spans, keys)
    requires KindAt(input, spans, |keys|) == NoGenerator
    ensures FreshExists(SpanAttempts(input, spans, |keys|), Values(keys))
  {
    hide SynthRun, KindOf, Placeholder, PoolOf;
    var i := |keys|;
    var tries, token := SpanAttempts(input, spans, i), Placeholder(spans[i].typ, Count(spans, spans[i].typ, i + 1));
    PlaceholderTried(spans[i].typ, Count(spans, spans[i].typ, i + 1), Count(spans, spans[i].typ, i + 1));
    assert tries(0) == token;
    forall j | 0 <= j < i ensures keys[j] != token {
      EarlierDiffers(input, spans, keys, j, i);
    }
    assert token !in Values(keys);
  }

  lemma EarlierDiffers(input: string, spans: seq<Span>, keys: seq<string>, j: nat, i: nat)
    requires Fits(spans, |input|) && j < i == |keys| < |spans| && SynthRun(input, spans, keys)
    requires KindAt(input, spans, i) == NoGenerator
    ensures keys[j] != Placeholder(spans[i].typ, Count(spans, spans[i].typ, i + 1))
  {
    hide SynthRun, KindOf, Placeholder, PoolOf, Fake;
    SynthRunPrefix(input, spans, keys, j + 1);
    var n := LastFake(input, spans, keys[..j + 1]);
    var served, typ, counter := KindAt(input, spans, j), spans[j].typ, Count(spans, spans[j].typ, j + 1);
    PoolReadBack(served, typ, counter, n);
    PlaceholderPool(spans[i].typ, Count(spans, spans[i].typ, i + 1));
    if served == NoGenerator {
      TokenKeysDistinct(spans, j, i);
      PlaceholderTried(typ, counter, n);
      assert TokenKeys(spans)[j] == Placeholder(typ, counter);
    }
  }

  lemma PlaceholderTried(typ: string, counter: nat, n: nat)
    ensures Fake(NoGenerator, typ, counter, n) == Placeholder(typ, counter)
  {
  }

  // ----- the condition -----

  /** Of the fakes issued so far, fewer than the period are values of the next span's generator. */
  ghost predicate HasRoom(input: string, spans: seq<Span>, keys: seq<string>)
    requires Fits(spans, |input|) && |keys| < |spans|
  {
    var kind := KindAt(input, spans, |keys|);
    Limited(kind) ==> Members(keys, Range(kind)) < Period(kind).value
  }

  /** In the middle of a run: the next span gets a fake exactly while its generator has room. */
  lemma NextStops(input: string, spans: seq<Span>, keys: seq<string>)
    requires Fits(spans, |input|) && |keys| < |spans| && SynthRun(input, spans, keys)
    ensures FreshExists(SpanAttempts(input, spans, |keys|), Values(keys)) <==> HasRoom(input, spans, keys)
  {
    hide SynthRun, FreshExists, KindAt, SpanAttempts, Period, Range;
    var kind := KindAt(input, spans, |keys|);
    if kind == NoGenerator {
      PlaceholderFresh(input, spans, keys);
    } else if Period(kind).None? {
      EndlessFresh(input, spans, |keys|, Values(keys));
    } else {
      SpanStops(input, spans, keys);
    }
  }

  /**
   On every text: `MaskSynthetic` returns if and only if no generator's values have all been
   given out when it is next needed.
   */
  lemma TerminatesByFakes(input: string, spans: seq<Span>)
    requires Fits(spans, |input|)
    ensures SynthTerminates(input, spans) <==>
      forall keys: seq<string> :: |keys| < |spans| && SynthRun(input, spans, keys) ==> HasRoom(input, spans, keys)
  {
    hide SynthRun, FreshExists, HasRoom, SpanAttempts;
    forall keys: seq<string> | |keys| < |spans| && SynthRun(input, spans, keys)
      ensures FreshExists(SpanAttempts(input, spans, |keys|), Values(keys)) <==> HasRoom(input, spans, keys)
    {
      NextStops(input, spans, keys);
    }
  }

  /** Enough: before each span its pool has served fewer spans than the generator has values. */
  lemma PoolsSuffice(input: string, spans: seq<Span>)
    requires Fits(spans, |input|) && PoolsHold(Kinds(input, spans))
    ensures SynthTerminates(input, spans)
  {
    hide SynthRun, KindAt, Period, Range, SynthTerminates;
    TerminatesByFakes(input, spans);
    forall keys: seq<string> | |keys| < |spans| && SynthRun(input, spans, keys) ensures HasRoom(input, spans, keys) {
      var kind := KindAt(input, spans, |keys|);
      assert Kinds(input, spans)[|keys|] == kind;
      if Limited(kind) {
        MembersBounds(input, spans, keys, kind);
      }
    }
  }

  /** When nothing runs dry the loop reaches every span. */
  lemma {:induction false} RunReaches(input: string, spans: seq<Span>, n: nat) returns (keys: seq<string>)
    requires Fits(spans, |input|) && SynthTerminates(input, spans) && n <= |spans|
    ensures |keys| == n && SynthRun(input, spans, keys)
  {
    hide SynthRun, SpanAttempts;
    if n == 0 {
      keys := [];
      SynthRunEmpty(input, spans);
    } else {
      keys := RunReaches(input, spans, n - 1);
      var tries := SpanAttempts(input, spans, n - 1);
      var a: nat :| tries(a) !in Values(keys);
      var first := Earliest(tries, Values(keys), a);
      SynthRunSnoc(input, spans, keys, tries(first));
      keys := keys + [tries(first)];
    }
  }

  /** Needed: before each span fewer of the generator's own values than there are have been given out. */
  lemma RangesNeeded(input: string, spans: seq<Span>, i: nat)
    requires Fits(spans, |input|) && SynthTerminates(input, spans)
    requires i < |spans| && Limited(KindAt(input, spans, i))
    ensures var kind := KindAt(input, spans, i);
      ServedInside(Kinds(input, spans), kind, i) < Period(kind).value
  {
    hide SynthRun, KindAt, SpanAttempts, Period, Range, Members, FreshExists;
    var keys := RunReaches(input, spans, i);
    assert FreshExists(SpanAttempts(input, spans, |keys|), Values(keys));
    SpanStops(input, spans, keys);
    MembersBounds(input, spans, keys, KindAt(input, spans, i));
  }

  lemma {:induction false} ServedCounts(kinds: seq<Kind>, kind: Kind, n: nat)
    requires n <= |kinds|
    ensures Served(kinds, kind, n) <= ServedInside(kinds, kind, n)
  {
    if n > 0 {
      ServedCounts(kinds, kind, n - 1);
    }
  }

  lemma {:induction false} LastServed(kinds: seq<Kind>, kind: Kind, n: nat) returns (i: nat)
    requires n <= |kinds| && Served(kinds, kind, n) > 0
    ensures i < n && kinds[i] == kind && Served(kinds, kind, n) == Served(kinds, kind, i) + 1
  {
    i := n - 1;
    if kinds[i] != kind {
      i := LastServed(kinds, kind, n - 1);
    }
  }

  /** No text that is masked has more spans of a generator than the generator has values. */
  lemma PeriodLimits(input: string, spans: seq<Span>, kind: Kind)
    requires Fits(spans, |input|) && SynthTerminates(input, spans) && Limited(kind)
    ensures Served(Kinds(input, spans), kind, |spans|) <= Period(kind).value
  {
    hide SynthTerminates, KindAt, Period;
    var kinds := Kinds(input, spans);
    if Served(kinds, kind, |spans|) > 0 {
      var i := LastServed(kinds, kind, |spans|);
      assert KindAt(input, spans, i) == kind;
      ServedCounts(kinds, kind, i);
      RangesNeeded(input, spans, i);
    }
  }

  lemma {:induction false} PoolIsInside(kinds: seq<Kind>, i: nat, n: nat)
    requires n <= i < |kinds| && NarrowFirst(kinds)
    ensures ServedByPool(kinds, kinds[i], n) == ServedInside(kinds, kinds[i], n)
  {
    if n > 0 {
      PoolIsInside(kinds, i, n - 1);
    }
  }

  /**
   Exact, by counting spans: `MaskSynthetic` returns if and only if before each span its
   pool has served fewer spans than the generator has values. Only three pools have two
   generators; in those the wider one must not come before the narrower.
   */
  lemma TerminatesExactly(input: string, spans: seq<Span>)
    requires Fits(spans, |input|) && NarrowFirst(Kinds(input, spans))
    ensures SynthTerminates(input, spans) <==> PoolsHold(Kinds(input, spans))
  {
    hide SynthTerminates, KindAt, Period, NarrowFirst;
    var kinds := Kinds(input, spans);
    if PoolsHold(kinds) {
      PoolsSuffice(input, spans);
    }
    if SynthTerminates(input, spans) {
      forall i | 0 <= i < |kinds| && Limited(kinds[i])
        ensures ServedByPool(kinds, kinds[i], i) < Period(kinds[i]).value
      {
        assert kinds[i] == KindAt(input, spans, i);
        RangesNeeded(input, spans, i);
        PoolIsInside(kinds, i, i);
      }
    }
  }
}
