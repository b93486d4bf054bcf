/**
 The sharded cache under concurrency. Critical sections are atomic steps: a reader takes
 the entry under the lock and looks at the clock afterwards, a writer looks at the clock
 first and stores under the lock, and the collector visits one shard after the other in
 two phases. Whatever the interleaving, `Get` answers as one plain expiring map would.
 */
module CacheRuns {
  import opened Common
  import opened Types
  import opened Cache

  /** The collector: waiting, about to scan a shard, or about to delete what it collected there. */
  datatype Collector = Waiting | Scanning(now: int, shard: nat) | Deleting(now: int, shard: nat, keys: set<Key>)

  /** The requests in flight and the answers given, the same for both machines. */
  datatype Clients = Clients(
    taken: map<nat, Option<SessionState>>,
    stamped: map<nat, (Key, SessionState)>,
    answers: seq<(nat, Option<SessionState>)>
  )

  /** The collector's steps: waking up, looking for expired keys in a shard, deleting them. */
  datatype Sweep = Tick | Scan | Delete

  datatype Step =
    | Advance(d: nat)
    | ReadItem(r: nat, key: Key)
    | Answer(r: nat)
    | Stamp(w: nat, key: Key, state: SessionState)
    | Write(w: nat)
    | Collect(sweep: Sweep)

  /** The cache: shards, clock, collector, clients. */
  datatype Sharded = Sharded(shards: Shards, clock: int, gc: Collector, clients: Clients)

  /** The specification: one map from which nothing is ever removed. */
  datatype PlainMap = PlainMap(items: map<Key, SessionState>, clock: int, clients: Clients)

  // ----- client steps -----

  function Took(c: Clients, r: nat, entry: Option<SessionState>): Clients {
    c.(taken := c.taken[r := entry])
  }

  function Answered(c: Clients, r: nat, clock: int): Clients {
    if r in c.taken
    then
      c.(taken := map x | x in c.taken && x != r :: c.taken[x],
         answers := c.answers + [(r, Live(c.taken[r], clock))])
    else c
  }

  function Stamped(c: Clients, w: nat, key: Key, state: SessionState, clock: int): Clients {
    c.(stamped := c.stamped[w := (key, WithExpiry(state, clock))])
  }

  function Finished(c: Clients, w: nat): Clients {
    c.(stamped := map x | x in c.stamped && x != w :: c.stamped[x])
  }

  // ----- the collector -----

  predicate CollectorInRange(gc: Collector) {
    gc.Waiting? || gc.shard < NUM_SHARDS
  }

  function NextShard(now: int, i: nat): Collector {
    if i + 1 < NUM_SHARDS then Scanning(now, i + 1) else Waiting
  }

  /** Where the collector stands after its step. */
  function CollectorNext(shards: Shards, gc: Collector, clock: int, sweep: Sweep): (next: Collector)
    requires |shards| == NUM_SHARDS && CollectorInRange(gc)
    ensures CollectorInRange(next)
  {
    match sweep
    case Tick => if gc.Waiting? then Scanning(clock, 0) else gc
    case Scan =>
      if gc.Scanning?
      then
        var keys := Stale(shards[gc.shard], gc.now);
        if keys == {} then NextShard(gc.now, gc.shard) else Deleting(gc.now, gc.shard, keys)
      else gc
    case Delete => if gc.Deleting? then NextShard(gc.now, gc.shard) else gc
  }

  /** What the collector's step leaves in the shards: only the delete phase touches them. */
  function Swept(shards: Shards, gc: Collector, sweep: Sweep): (after: Shards)
    requires |shards| == NUM_SHARDS && CollectorInRange(gc)
    ensures |after| == NUM_SHARDS
  {
    if sweep.Delete? && gc.Deleting?
    then shards[gc.shard := Purged(shards[gc.shard], gc.keys, gc.now)]
    else shards
  }

  // ----- the two machines -----

  function ShardedStep(s: Sharded, step: Step): (t: Sharded)
    requires |s.shards| == NUM_SHARDS && CollectorInRange(s.gc)
    ensures |t.shards| == NUM_SHARDS && CollectorInRange(t.gc)
  {
    match step
    case Advance(d) => s.(clock := s.clock + d)
    case ReadItem(r, key) => s.(clients := Took(s.clients, r, Lookup(s.shards, key)))
    case Answer(r) => s.(clients := Answered(s.clients, r, s.clock))
    case Stamp(w, key, state) => s.(clients := Stamped(s.clients, w, key, state, s.clock))
    case Write(w) =>
      if w in s.clients.stamped
      then
        var (key, state) := s.clients.stamped[w];
        s.(shards := Put(s.shards, key, state), clients := Finished(s.clients, w))
      else s
    case Collect(sweep) =>
      s.(shards := Swept(s.shards, s.gc, sweep), gc := CollectorNext(s.shards, s.gc, s.clock, sweep))
  }

  function PlainStep(s: PlainMap, step: Step): PlainMap {
    match step
    case Advance(d) => s.(clock := s.clock + d)
    case ReadItem(r, key) => s.(clients := Took(s.clients, r, Find(s.items, key)))
    case Answer(r) => s.(clients := Answered(s.clients, r, s.clock))
    case Stamp(w, key, state) => s.(clients := Stamped(s.clients, w, key, state, s.clock))
    case Write(w) =>
      if w in s.clients.stamped
      then
        var (key, state) := s.clients.stamped[w];
        s.(items := s.items[key := state], clients := Finished(s.clients, w))
      else s
    case _ => s
  }

  const NO_CLIENTS := Clients(map[], map[], [])

  function ShardedStart(clock: int): (s: Sharded)
    ensures |s.shards| == NUM_SHARDS
  {
    Sharded(seq(NUM_SHARDS, _ => map[]), clock, Waiting, NO_CLIENTS)
  }

  function ShardedRun(clock: int, steps: seq<Step>): (s: Sharded)
    ensures |s.shards| == NUM_SHARDS && CollectorInRange(s.gc)
  {
    if steps == [] then ShardedStart(clock)
    else ShardedStep(ShardedRun(clock, steps[..|steps| - 1]), steps[|steps| - 1])
  }

  function PlainRun(clock: int, steps: seq<Step>): PlainMap {
    if steps == [] then PlainMap(map[], clock, NO_CLIENTS)
    else PlainStep(PlainRun(clock, steps[..|steps| - 1]), steps[|steps| - 1])
  }

  // ----- the refinement -----

  /** The cache's entry is the map's, or is gone after the map's expired. */
  ghost predicate Matches(here: Option<SessionState>, there: Option<SessionState>, clock: int) {
    here == there || (here.None? && there.Some? && Expired(there.value, clock))
  }

  ghost predicate ItemsMatch(shards: Shards, items: map<Key, SessionState>, clock: int)
    requires |shards| == NUM_SHARDS
  {
    forall k :: Matches(Lookup(shards, k), Find(items, k), clock)
  }

  ghost predicate ReadsMatch(a: map<nat, Option<SessionState>>, b: map<nat, Option<SessionState>>, clock: int) {
    a.Keys == b.Keys && forall r :: r in a ==> Matches(a[r], b[r], clock)
  }

  /** The collector's time is not ahead of the clock. */
  predicate CollectorFits(gc: Collector, clock: int) {
    CollectorInRange(gc) && (gc.Waiting? || gc.now <= clock)
  }

  ghost predicate Refines(s: Sharded, p: PlainMap) {
    && |s.shards| == NUM_SHARDS && Placed(s.shards)
    && s.clock == p.clock
    && CollectorFits(s.gc, s.clock)
    && ItemsMatch(s.shards, p.items, s.clock)
    && ReadsMatch(s.clients.taken, p.clients.taken, s.clock)
    && s.clients.stamped == p.clients.stamped
    && s.clients.answers == p.clients.answers
  }

  lemma PutMatches(shards: Shards, items: map<Key, SessionState>, key: Key, state: SessionState, clock: int)
    requires Placed(shards) && ItemsMatch(shards, items, clock)
    ensures Placed(Put(shards, key, state)) && ItemsMatch(Put(shards, key, state), items[key := state], clock)
  {
    hide ShardOf;
    var after := Put(shards, key, state);
    forall k ensures Matches(Lookup(after, k), Find(items[key := state], k), clock) {
      assert Matches(Lookup(shards, k), Find(items, k), clock);
    }
  }

  /** Deleting re-checked keys is invisible as long as the collector's time is not ahead of the clock. */
  lemma PurgeMatches(shards: Shards, items: map<Key, SessionState>, i: nat, keys: set<Key>, now: int, clock: int)
    requires Placed(shards) && ItemsMatch(shards, items, clock) && i < NUM_SHARDS && now <= clock
    ensures Placed(shards[i := Purged(shards[i], keys, now)])
    ensures ItemsMatch(shards[i := Purged(shards[i], keys, now)], items, clock)
  {
    hide ShardOf;
    var after := shards[i := Purged(shards[i], keys, now)];
    forall k ensures Matches(Lookup(after, k), Find(items, k), clock) {
      assert Matches(Lookup(shards, k), Find(items, k), clock);
    }
  }

  /** No step of the collector can be seen. */
  lemma SweepMatches(shards: Shards, items: map<Key, SessionState>, gc: Collector, clock: int, sweep: Sweep)
    requires Placed(shards) && ItemsMatch(shards, items, clock) && CollectorFits(gc, clock)
    ensures Placed(Swept(shards, gc, sweep)) && ItemsMatch(Swept(shards, gc, sweep), items, clock)
    ensures CollectorFits(CollectorNext(shards, gc, clock, sweep), clock)
  {
    hide Placed, ItemsMatch, Purged, Stale;
    if sweep.Delete? && gc.Deleting? {
      PurgeMatches(shards, items, gc.shard, gc.keys, gc.now, clock);
    }
  }

  lemma TimePasses(shards: Shards, items: map<Key, SessionState>, before: int, after: int)
    requires |shards| == NUM_SHARDS && ItemsMatch(shards, items, before) && before <= after
    ensures ItemsMatch(shards, items, after)
  {
    hide Lookup, Find;
    forall k ensures Matches(Lookup(shards, k), Find(items, k), after) {
      assert Matches(Lookup(shards, k), Find(items, k), before);
    }
  }

  /** One step of the cache is one step, or no step, of the plain map. */
  lemma StepRefines(s: Sharded, p: PlainMap, step: Step)
    requires Refines(s, p)
    ensures Refines(ShardedStep(s, step), PlainStep(p, step))
  {
    hide Placed, ItemsMatch, Put, Swept, CollectorNext, Lookup, Find;
    match step
    case Advance(d) => TimePasses(s.shards, p.items, s.clock, s.clock + d);
    case ReadItem(r, key) => LookupMatches(s.shards, p.items, key, s.clock);
    case Answer(r) =>
    case Stamp(w, key, state) =>
    case Write(w) =>
      if w in s.clients.stamped {
        PutMatches(s.shards, p.items, s.clients.stamped[w].0, s.clients.stamped[w].1, s.clock);
      }
    case Collect(sweep) => SweepMatches(s.shards, p.items, s.gc, s.clock, sweep);
  }

  lemma LookupMatches(shards: Shards, items: map<Key, SessionState>, key: Key, clock: int)
    requires |shards| == NUM_SHARDS && ItemsMatch(shards, items, clock)
    ensures Matches(Lookup(shards, key), Find(items, key), clock)
  {
  }

  lemma StartRefines(clock: int)
    ensures Refines(ShardedStart(clock), PlainMap(map[], clock, NO_CLIENTS))
  {
    hide ShardOf;
  }

  lemma {:induction false} RunRefines(clock: int, steps: seq<Step>)
    ensures Refines(ShardedRun(clock, steps), PlainRun(clock, steps))
  {
    hide Refines, ShardedStep, PlainStep;
    if steps == [] {
      StartRefines(clock);
    } else {
      var k := |steps| - 1;
      RunRefines(clock, steps[..k]);
      StepRefines(ShardedRun(clock, steps[..k]), PlainRun(clock, steps[..k]), steps[k]);
    }
  }

  /**
   Over every interleaving of readers, writers, the clock and the collector the sharded
   cache gives the answers of one plain expiring map, and keeps each key in its own shard.
   */
  lemma AnswersAsPlainMap(clock: int, steps: seq<Step>)
    ensures ShardedRun(clock, steps).clients.answers == PlainRun(clock, steps).clients.answers
    ensures Placed(ShardedRun(clock, steps).shards)
  {
    RunRefines(clock, steps);
  }

  /** A key refreshed between the two phases survives the delete phase. */
  lemma RefreshedKeySurvives(s: Sharded, key: Key)
    requires Placed(s.shards) && s.gc.Deleting? && CollectorInRange(s.gc)
    requires Lookup(s.shards, key).Some? && !Expired(Lookup(s.shards, key).value, s.gc.now)
    ensures Lookup(ShardedStep(s, Collect(Delete)).shards, key) == Lookup(s.shards, key)
  {
    hide ShardOf;
  }

  /** A step of the collector, or of another client, keeps every entry that is still alive. */
  lemma LiveEntriesKept(clock: int, steps: seq<Step>, key: Key)
    ensures Live(Lookup(ShardedRun(clock, steps).shards, key), ShardedRun(clock, steps).clock)
         == Live(Find(PlainRun(clock, steps).items, key), PlainRun(clock, steps).clock)
  {
    RunRefines(clock, steps);
    LookupMatches(ShardedRun(clock, steps).shards, PlainRun(clock, steps).items, key, PlainRun(clock, steps).clock);
  }

  // ----- read your write -----

  lemma PlainSnoc(clock: int, steps: seq<Step>, step: Step)
    ensures PlainRun(clock, steps + [step]) == PlainStep(PlainRun(clock, steps), step)
  {
    assert (steps + [step])[..|steps|] == steps;
  }

  /** No step stamps an entry for `key`. */
  predicate NeverStamps(steps: seq<Step>, key: Key) {
    forall i :: 0 <= i < |steps| && steps[i].Stamp? ==> steps[i].key != key
  }

  /** No step stamps or writes for writer `w`. */
  predicate LeavesWriter(steps: seq<Step>, w: nat) {
    forall i :: 0 <= i < |steps| ==>
      !(steps[i].Stamp? && steps[i].w == w) && !(steps[i].Write? && steps[i].w == w)
  }

  /** No step reads or answers for reader `r`. */
  predicate LeavesReader(steps: seq<Step>, r: nat) {
    forall i :: 0 <= i < |steps| ==>
      !(steps[i].ReadItem? && steps[i].r == r) && !(steps[i].Answer? && steps[i].r == r)
  }

  /** Nobody holds a stamped entry for `key`, except perhaps one writer. */
  ghost predicate OnlyWriter(p: PlainMap, key: Key, w: Option<nat>) {
    forall v :: v in p.clients.stamped && p.clients.stamped[v].0 == key ==> w == Some(v)
  }

  lemma {:induction false} NobodyWrites(clock: int, pre: seq<Step>, seg: seq<Step>, key: Key)
    requires OnlyWriter(PlainRun(clock, pre), key, None) && NeverStamps(seg, key)
    ensures OnlyWriter(PlainRun(clock, pre + seg), key, None)
    ensures Find(PlainRun(clock, pre + seg).items, key) == Find(PlainRun(clock, pre).items, key)
    decreases |seg|
  {
    if seg == [] {
      assert pre + seg == pre;
    } else {
      hide PlainRun, Find;
      var k := |seg| - 1;
      NobodyWrites(clock, pre, seg[..k], key);
      PlainSnoc(clock, pre + seg[..k], seg[k]);
      assert pre + seg[..k] + [seg[k]] == pre + seg;
      OtherStep(PlainRun(clock, pre + seg[..k]), seg[k], key);
    }
  }

  lemma OtherStep(p: PlainMap, step: Step, key: Key)
    requires OnlyWriter(p, key, None) && (step.Stamp? ==> step.key != key)
    ensures OnlyWriter(PlainStep(p, step), key, None) && Find(PlainStep(p, step).items, key) == Find(p.items, key)
  {
  }

  /** A stamped entry waits for its writer, and no other writer gets one for the key. */
  lemma {:induction false} StampWaits(
    clock: int, pre: seq<Step>, seg: seq<Step>, key: Key, w: nat, entry: SessionState)
    requires var p := PlainRun(clock, pre);
      OnlyWriter(p, key, Some(w)) && w in p.clients.stamped && p.clients.stamped[w] == (key, entry)
    requires NeverStamps(seg, key) && LeavesWriter(seg, w)
    ensures var p := PlainRun(clock, pre + seg);
      OnlyWriter(p, key, Some(w)) && w in p.clients.stamped && p.clients.stamped[w] == (key, entry)
    decreases |seg|
  {
    if seg == [] {
      assert pre + seg == pre;
    } else {
      hide PlainRun;
      var k := |seg| - 1;
      StampWaits(clock, pre, seg[..k], key, w, entry);
      PlainSnoc(clock, pre + seg[..k], seg[k]);
      assert pre + seg[..k] + [seg[k]] == pre + seg;
    }
  }

  /** What a reader has taken waits for its answer. */
  lemma {:induction false} ReadWaits(clock: int, pre: seq<Step>, seg: seq<Step>, r: nat, entry: Option<SessionState>)
    requires var p := PlainRun(clock, pre); r in p.clients.taken && p.clients.taken[r] == entry
    requires LeavesReader(seg, r)
    ensures var p := PlainRun(clock, pre + seg); r in p.clients.taken && p.clients.taken[r] == entry
    decreases |seg|
  {
    if seg == [] {
      assert pre + seg == pre;
    } else {
      hide PlainRun, Live, Find;
      var k := |seg| - 1;
      ReadWaits(clock, pre, seg[..k], r, entry);
      PlainSnoc(clock, pre + seg[..k], seg[k]);
      assert pre + seg[..k] + [seg[k]] == pre + seg;
    }
  }

  /** A key no step stamps is in nobody's hands. */
  lemma {:induction false} NobodyHolds(clock: int, steps: seq<Step>, key: Key)
    requires NeverStamps(steps, key)
    ensures OnlyWriter(PlainRun(clock, steps), key, None)
  {
    if steps != [] {
      var k := |steps| - 1;
      NobodyHolds(clock, steps[..k], key);
      OtherStep(PlainRun(clock, steps[..k]), steps[k], key);
    }
  }

  /** The stamped entry of a key written once, up to its write. */
  lemma WrittenOnce(clock: int, a: seq<Step>, b: seq<Step>, key: Key, w: nat, state: SessionState)
    requires NeverStamps(a, key) && NeverStamps(b, key) && LeavesWriter(b, w)
    ensures var p := PlainRun(clock, a + [Stamp(w, key, state)] + b + [Write(w)]);
      && OnlyWriter(p, key, None)
      && Find(p.items, key) == Some(WithExpiry(state, PlainRun(clock, a).clock))
  {
    hide PlainRun, WithExpiry;
    var pre := a + [Stamp(w, key, state)];
    NobodyHolds(clock, a, key);
    PlainSnoc(clock, a, Stamp(w, key, state));
    StampWaits(clock, pre, b, key, w, WithExpiry(state, PlainRun(clock, a).clock));
    PlainSnoc(clock, pre + b, Write(w));
  }

  /** The steps of one write and one later read, with anything in between. */
  function WriteThenRead(
    a: seq<Step>, b: seq<Step>, c: seq<Step>, d: seq<Step>, key: Key, w: nat, state: SessionState, r: nat): seq<Step>
  {
    a + [Stamp(w, key, state)] + b + [Write(w)] + c + [ReadItem(r, key)] + d
  }

  lemma PlainReadsWrite(
    clock: int, a: seq<Step>, b: seq<Step>, c: seq<Step>, d: seq<Step>, key: Key, w: nat, state: SessionState, r: nat)
    requires NeverStamps(a, key) && NeverStamps(b, key) && NeverStamps(c, key)
    requires LeavesWriter(b, w) && LeavesReader(d, r)
    ensures var p := PlainRun(clock, WriteThenRead(a, b, c, d, key, w, state, r));
      r in p.clients.taken && p.clients.taken[r] == Some(WithExpiry(state, PlainRun(clock, a).clock))
  {
    hide PlainRun, WithExpiry, Find;
    var written := a + [Stamp(w, key, state)] + b + [Write(w)];
    WrittenOnce(clock, a, b, key, w, state);
    NobodyWrites(clock, written, c, key);
    PlainSnoc(clock, written + c, ReadItem(r, key));
    ReadWaits(clock, written + c + [ReadItem(r, key)], d, r, Some(WithExpiry(state, PlainRun(clock, a).clock)));
  }

  /**
   Read your write, on the shards, over every interleaving with other clients, the clock and
   the collector: a key stamped once is answered with that state by every read that starts
   after the write and looks at the clock within fifteen minutes of the stamp; after that
   the answer is a miss.
   */
  lemma ReadYourWrite(
    clock: int, a: seq<Step>, b: seq<Step>, c: seq<Step>, d: seq<Step>, key: Key, w: nat, state: SessionState, r: nat)
    requires NeverStamps(a, key) && NeverStamps(b, key) && NeverStamps(c, key)
    requires LeavesWriter(b, w) && LeavesReader(d, r)
    ensures var steps := WriteThenRead(a, b, c, d, key, w, state, r);
      var expiry := ShardedRun(clock, a).clock + 900_000_000_000;
      ShardedRun(clock, steps + [Answer(r)]).clients.answers == ShardedRun(clock, steps).clients.answers +
        [(r, if ShardedRun(clock, steps).clock <= expiry then Some(state.(expiresAt := expiry)) else None)]
  {
    hide PlainRun, ShardedRun, NeverStamps, LeavesWriter, LeavesReader;
    var steps := WriteThenRead(a, b, c, d, key, w, state, r);
    RunRefines(clock, a);
    RunRefines(clock, steps);
    AnswersAsPlainMap(clock, steps);
    AnswersAsPlainMap(clock, steps + [Answer(r)]);
    PlainReadsWrite(clock, a, b, c, d, key, w, state, r);
    PlainSnoc(clock, steps, Answer(r));
  }
}
