/** `Process` of internal/service/service.go over the cache: one call, start to end. */
module Service {
  import opened Common
  import opened Types
  import opened Spans
  import opened Collect
  import opened Replacer
  import opened Weaving
  import opened Maskers
  import opened RoundTrips
  import opened Cache

  datatype Strategy = TokenStrategy | AsteriskStrategy | SyntheticStrategy

  datatype Options = Options(allowed: Option<set<string>>, demaskEnabled: bool, strategy: Strategy)

  /** What the forward step issues: the masked text and its reverse mapping. */
  datatype Issued = Issued(masked: string, mapping: map<string, string>)

  /** The answer once a session exists: the mask again, or the demasked payload. */
  function Reply(state: SessionState, payload: string, demaskEnabled: bool): string {
    if payload == state.original then state.masked
    else if !demaskEnabled then payload
    else if state.mapping == map[] then (if payload == state.masked then state.original else payload)
    else Replace(state.mapping, payload)
  }

  /** What masking `payload` with some merged spans issues, strategy by strategy. */
  ghost predicate IssuedBy(strategy: Strategy, payload: string, spans: seq<Span>, issued: Issued)
    requires Fits(spans, |payload|)
  {
    match strategy
    case TokenStrategy => issued == Issued(TokenMasked(payload, spans), TokenMapping(payload, spans))
    case AsteriskStrategy => issued == Issued(StarMasked(payload, spans), map[])
    case SyntheticStrategy => exists keys :: FakedBy(payload, spans, keys, issued.masked, issued.mapping)
  }

  /** The spans `collectSpans` may return. */
  ghost predicate SpansOf(e: Engine, payload: string, allowed: Option<set<string>>, spans: seq<Span>)
    requires Sound(e, payload)
  {
    NormalFormOf(spans, Kept(e, payload, allowed)) && Within(spans, |payload|)
  }

  /** A forward step masks what the detectors report. */
  ghost predicate IsForward(e: Engine, payload: string, opts: Options, issued: Issued)
    requires Sound(e, payload)
  {
    exists spans :: SpansOf(e, payload, opts.allowed, spans) && IssuedBy(opts.strategy, payload, spans, issued)
  }

  /** The synthetic masker terminates on this payload. */
  ghost predicate Terminates(e: Engine, payload: string, opts: Options)
    requires Sound(e, payload)
  {
    opts.strategy.SyntheticStrategy? ==>
      forall s :: SpansOf(e, payload, opts.allowed, s) ==> SynthTerminates(payload, s)
  }

  lemma NoEmptyToken(payload: string, spans: seq<Span>)
    requires Fits(spans, |payload|)
    ensures "" !in TokenMapping(payload, spans)
  {
    MappingDomain(TokenPieces(payload, spans), "");
  }

  lemma NoEmptyFake(payload: string, spans: seq<Span>, keys: seq<string>)
    requires Fits(spans, |payload|) && |keys| == |spans| && SynthRun(payload, spans, keys)
    ensures "" !in MappingOf(Pieces(payload, spans, keys))
  {
    hide SynthRun;
    MappingDomain(Pieces(payload, spans, keys), "");
    forall i | 0 <= i < |keys| ensures keys[i] != "" {
      SynthKeyNonEmpty(payload, spans, keys, i);
    }
  }

  lemma DetectedSpans(e: Engine, payload: string, allowed: Option<set<string>>, spans: seq<Span>, detected: seq<string>)
    requires Sound(e, payload) && Detected(e, payload, allowed, spans, detected)
    ensures SpansOf(e, payload, allowed, spans) && Fits(spans, |payload|)
  {
  }

  lemma TokensForward(
    e: Engine, payload: string, opts: Options, spans: seq<Span>, detected: seq<string>, issued: Issued)
    requires Sound(e, payload) && opts.strategy.TokenStrategy?
    requires Detected(e, payload, opts.allowed, spans, detected)
    requires issued == Issued(TokenMasked(payload, spans), TokenMapping(payload, spans))
    ensures IsForward(e, payload, opts, issued) && "" !in issued.mapping
  {
    hide SpansOf, Detected, TokenMasked, TokenMapping;
    DetectedSpans(e, payload, opts.allowed, spans, detected);
    NoEmptyToken(payload, spans);
    assert IssuedBy(opts.strategy, payload, spans, issued);
  }

  method ForwardTokens(e: Engine, payload: string, opts: Options) returns (issued: Issued)
    requires Sound(e, payload) && opts.strategy.TokenStrategy?
    ensures IsForward(e, payload, opts, issued) && "" !in issued.mapping
  {
    hide IsForward, TokenMasked, TokenMapping, Kept;
    var masked, detected, mapping := Mask(e, payload, opts.allowed);
    issued := Issued(masked, mapping);
    ghost var spans :| Detected(e, payload, opts.allowed, spans, detected)
      && masked == TokenMasked(payload, spans) && mapping == TokenMapping(payload, spans);
    TokensForward(e, payload, opts, spans, detected, issued);
  }

  lemma AsterisksForward(
    e: Engine, payload: string, opts: Options, spans: seq<Span>, detected: seq<string>, issued: Issued)
    requires Sound(e, payload) && opts.strategy.AsteriskStrategy?
    requires Detected(e, payload, opts.allowed, spans, detected)
    requires issued == Issued(StarMasked(payload, spans), map[])
    ensures IsForward(e, payload, opts, issued)
  {
    hide SpansOf, Detected, StarMasked;
    DetectedSpans(e, payload, opts.allowed, spans, detected);
    assert IssuedBy(opts.strategy, payload, spans, issued);
  }

  method ForwardAsterisks(e: Engine, payload: string, opts: Options) returns (issued: Issued)
    requires Sound(e, payload) && opts.strategy.AsteriskStrategy?
    ensures IsForward(e, payload, opts, issued) && "" !in issued.mapping
  {
    hide IsForward, StarMasked, Kept;
    var masked, detected := MaskAsterisks(e, payload, opts.allowed);
    issued := Issued(masked, map[]);
    ghost var spans :| Detected(e, payload, opts.allowed, spans, detected) && masked == StarMasked(payload, spans);
    AsterisksForward(e, payload, opts, spans, detected, issued);
  }

  lemma FakesForward(
    e: Engine, payload: string, opts: Options,
    spans: seq<Span>, detected: seq<string>, keys: seq<string>, issued: Issued)
    requires Sound(e, payload) && opts.strategy.SyntheticStrategy?
    requires Detected(e, payload, opts.allowed, spans, detected)
    requires FakedBy(payload, spans, keys, issued.masked, issued.mapping)
    ensures IsForward(e, payload, opts, issued) && "" !in issued.mapping
  {
    hide SpansOf, Detected, SynthRun;
    DetectedSpans(e, payload, opts.allowed, spans, detected);
    NoEmptyFake(payload, spans, keys);
    assert IssuedBy(opts.strategy, payload, spans, issued);
  }

  method ForwardSynthetic(e: Engine, payload: string, opts: Options) returns (issued: Issued)
    requires Sound(e, payload) && opts.strategy.SyntheticStrategy? && Terminates(e, payload, opts)
    ensures IsForward(e, payload, opts, issued) && "" !in issued.mapping
  {
    hide IsForward, SynthTerminates, FakedBy, Kept;
    var masked, detected, mapping := MaskSynthetic(e, payload, opts.allowed);
    issued := Issued(masked, mapping);
    ghost var spans, keys :| Detected(e, payload, opts.allowed, spans, detected)
      && FakedBy(payload, spans, keys, masked, mapping);
    FakesForward(e, payload, opts, spans, detected, keys, issued);
  }

  /** The `switch` of `Process` over the masking strategies. */
  method Forward(e: Engine, payload: string, opts: Options) returns (issued: Issued)
    requires Sound(e, payload) && Terminates(e, payload, opts)
    ensures IsForward(e, payload, opts, issued) && "" !in issued.mapping
  {
    hide IsForward, Terminates, Sound;
    match opts.strategy {
      case AsteriskStrategy => issued := ForwardAsterisks(e, payload, opts);
      case SyntheticStrategy => issued := ForwardSynthetic(e, payload, opts);
      case TokenStrategy => issued := ForwardTokens(e, payload, opts);
    }
  }

  /**
   One call of `Process` on the shards: a live session answers and nothing is stored; else
   the payload is masked and stored with a fresh expiry.
   */
  ghost predicate Processed(
    e: Engine, before: Shards, id: Key, payload: string, opts: Options, readAt: int, storedAt: int,
    result: string, after: Shards)
    requires Sound(e, payload) && |before| == NUM_SHARDS
  {
    var found := Live(Lookup(before, id), readAt);
    if found.Some? then result == Reply(found.value, payload, opts.demaskEnabled) && after == before
    else
      exists issued :: IsForward(e, payload, opts, issued) && result == issued.masked
        && after == Put(before, id, WithExpiry(SessionState(payload, issued.masked, issued.mapping, 0), storedAt))
  }

  class Service {
    const cache: ShardedCache
    var engine: Engine

    /** The cache is well formed and none of its mappings has an empty key. */
    ghost predicate Valid()
      reads this, cache, cache.shards
    {
      && cache.Valid()
      && forall k :: Lookup(cache.shards[..], k).Some? ==> "" !in Lookup(cache.shards[..], k).value.mapping
    }

    constructor (cache: ShardedCache, engine: Engine)
      requires cache.Valid() && forall k :: Lookup(cache.shards[..], k) == None
      ensures Valid() && this.cache == cache && this.engine == engine
    {
      this.cache := cache;
      this.engine := engine;
    }

    /** `SetCompositeMasking` */
    method SetCompositeMasking(on: bool)
      modifies `engine
      ensures engine == old(engine).(composite := on)
    {
      engine := engine.(composite := on);
    }

    /**
     `Process`: a first payload under an id is masked and stored; later ones get the mask
     again, or are demasked. `readAt` and `storedAt` are the clock at `Get` and at `Set`.
     Only a first payload has to be one on which the masker returns.
     */
    method Process(id: Key, payload: string, opts: Options, readAt: int, storedAt: int) returns (result: string)
      requires Valid() && Sound(engine, payload)
      requires Live(Lookup(cache.shards[..], id), readAt).None? ==> Terminates(engine, payload, opts)
      modifies cache.shards
      ensures Valid()
      ensures Processed(engine, old(cache.shards[..]), id, payload, opts, readAt, storedAt, result, cache.shards[..])
    {
      hide IsForward, Terminates, Sound;
      var found := cache.Get(id, readAt);
      if found.None? {
        var issued := Forward(engine, payload, opts);
        var state := SessionState(payload, issued.masked, issued.mapping, 0);
        ghost var before := cache.shards[..];
        cache.Set(id, state, storedAt);
        StoredWithoutEmptyKey(before, id, WithExpiry(state, storedAt));
        return issued.masked;
      }
      var state := found.value;
      if payload == state.original {
        return state.masked;
      }
      if !opts.demaskEnabled {
        return payload;
      }
      if |state.mapping| == 0 {
        if payload == state.masked {
          return state.original;
        }
        return payload;
      }
      result := Demask(payload, state.mapping);
    }
  }

  lemma StoredWithoutEmptyKey(shards: Shards, id: Key, state: SessionState)
    requires |shards| == NUM_SHARDS && "" !in state.mapping
    requires forall k :: Lookup(shards, k).Some? ==> "" !in Lookup(shards, k).value.mapping
    ensures forall k :: Lookup(Put(shards, id, state), k).Some? ==>
      "" !in Lookup(Put(shards, id, state), k).value.mapping
  {
    hide ShardOf;
    forall k | Lookup(Put(shards, id, state), k).Some?
      ensures "" !in Lookup(Put(shards, id, state), k).value.mapping
    {
      if k != id {
        assert Lookup(Put(shards, id, state), k) == Lookup(shards, k);
      }
    }
  }

  /** The answer of a session to any later payload. */
  function SecondAnswer(first: string, issued: Issued, payload: string, demaskEnabled: bool): string {
    if payload == first then issued.masked
    else if !demaskEnabled then payload
    else if issued.mapping != map[] then Replace(issued.mapping, payload)
    else if payload == issued.masked then first
    else payload
  }

  /**
   Two calls under one id, with calls under other ids in between: for fifteen minutes after
   the first was stored the second is answered from its session and stores nothing; later
   it is a first payload again.
   */
  lemma SecondCall(
    e1: Engine, e2: Engine, id: Key, p1: string, p2: string, opts1: Options, opts2: Options,
    readAt1: int, storedAt1: int, readAt2: int, storedAt2: int,
    s0: Shards, s1: Shards, s2: Shards, s3: Shards, r1: string, r2: string)
    requires Sound(e1, p1) && Sound(e2, p2) && |s0| == |s1| == |s2| == NUM_SHARDS
    requires Live(Lookup(s0, id), readAt1).None? && Lookup(s2, id) == Lookup(s1, id)
    requires Processed(e1, s0, id, p1, opts1, readAt1, storedAt1, r1, s1)
    requires Processed(e2, s2, id, p2, opts2, readAt2, storedAt2, r2, s3)
    ensures exists issued ::
      && IsForward(e1, p1, opts1, issued) && r1 == issued.masked
      && (readAt2 <= storedAt1 + 900_000_000_000 ==>
            r2 == SecondAnswer(p1, issued, p2, opts2.demaskEnabled) && s3 == s2)
    ensures readAt2 > storedAt1 + 900_000_000_000 ==>
      exists issued :: IsForward(e2, p2, opts2, issued) && r2 == issued.masked
  {
    hide IsForward, Sound, Put, Lookup, Replace;
    var issued :| IsForward(e1, p1, opts1, issued) && r1 == issued.masked
      && s1 == Put(s0, id, WithExpiry(SessionState(p1, issued.masked, issued.mapping, 0), storedAt1));
    SetThenGet(s0, id, SessionState(p1, issued.masked, issued.mapping, 0), storedAt1, readAt2, id);
  }
}
