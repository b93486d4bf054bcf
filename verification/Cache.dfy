/** The sharded expiring cache of internal/repository/cache/cache.go. */
module Cache {
  import opened Common
  import opened Types

  const NUM_SHARDS: nat := 64
  const SHARD_MASK: bv32 := 63
  const FNV_OFFSET: bv32 := 2166136261
  const FNV_PRIME: bv32 := 16777619

  /** Fifteen minutes. */
  const ENTRY_TTL: int := 900_000_000_000

  type Shards = seq<map<Key, SessionState>>

  /** One byte of FNV-1a, modulo 2^32. */
  function HashByte(hash: bv32, b: bv8): bv32 {
    (hash ^ (b as bv32)) * FNV_PRIME
  }

  /** FNV-1a over the bytes of the key. */
  function HashFrom(hash: bv32, key: Key): bv32
    decreases |key|
  {
    if key == [] then hash else HashFrom(HashByte(hash, key[0]), key[1..])
  }

  function ShardIndex(hash: bv32): (i: nat)
    ensures i < NUM_SHARDS
  {
    assert hash & SHARD_MASK <= 63;
    (hash & SHARD_MASK) as nat
  }

  /** The one shard a key lives in. */
  function ShardOf(key: Key): (i: nat)
    ensures i < NUM_SHARDS
  {
    ShardIndex(HashFrom(FNV_OFFSET, key))
  }

  /** Every key lives only in its own shard. */
  ghost predicate Placed(shards: Shards) {
    && |shards| == NUM_SHARDS
    && forall i, k :: 0 <= i < NUM_SHARDS && k in shards[i] ==> ShardOf(k) == i
  }

  function Lookup(shards: Shards, key: Key): Option<SessionState>
    requires |shards| == NUM_SHARDS
  {
    var shard := shards[ShardOf(key)];
    if key in shard then Some(shard[key]) else None
  }

  /** The same for one plain map. */
  function Find(items: map<Key, SessionState>, key: Key): Option<SessionState> {
    if key in items then Some(items[key]) else None
  }

  function Put(shards: Shards, key: Key, state: SessionState): (r: Shards)
    requires |shards| == NUM_SHARDS
    ensures |r| == NUM_SHARDS
  {
    shards[ShardOf(key) := shards[ShardOf(key)][key := state]]
  }

  /** `now.After(expiresAt)` */
  predicate Expired(state: SessionState, now: int) {
    now > state.expiresAt
  }

  /** What `Get` makes of the entry it read. */
  function Live(entry: Option<SessionState>, now: int): Option<SessionState> {
    if entry.Some? && !Expired(entry.value, now) then entry else None
  }

  /** The entry `Set` writes at time `now`. */
  function WithExpiry(state: SessionState, now: int): SessionState {
    state.(expiresAt := now + ENTRY_TTL)
  }

  /** The first phase of `cleanup`: the expired keys of a shard. */
  function Stale(shard: map<Key, SessionState>, now: int): set<Key> {
    set k | k in shard && Expired(shard[k], now)
  }

  /** The second phase: the collected keys go unless their entry is no longer expired. */
  function Purged(shard: map<Key, SessionState>, keys: set<Key>, now: int): map<Key, SessionState> {
    map k | k in shard && !(k in keys && Expired(shard[k], now)) :: shard[k]
  }

  class ShardedCache {
    var shards: array<map<Key, SessionState>>

    ghost predicate Valid()
      reads this, shards
    {
      Placed(shards[..])
    }

    constructor ()
      ensures Valid() && fresh(shards)
      ensures forall k :: Lookup(shards[..], k) == None
    {
      shards := new map<Key, SessionState>[NUM_SHARDS](_ => map[]);
    }

    /** `getShard`: the hash is accumulated byte by byte. */
    method GetShard(key: Key) returns (i: nat)
      ensures i == ShardOf(key)
    {
      hide HashByte, ShardIndex;
      var hash := FNV_OFFSET;
      for j := 0 to |key|
        invariant HashFrom(hash, key[j..]) == HashFrom(FNV_OFFSET, key)
      {
        assert key[j..][0] == key[j] && key[j..][1..] == key[j + 1..];
        hash := HashByte(hash, key[j]);
      }
      i := ShardIndex(hash);
    }

    /** `Get` at time `now`: absent and expired entries are both misses. */
    method Get(key: Key, now: int) returns (state: Option<SessionState>)
      requires Valid()
      ensures state == Live(Lookup(shards[..], key), now)
    {
      var i := GetShard(key);
      var items := shards[i];
      var exists_ := key in items;
      if !exists_ || Expired(items[key], now) {
        return None;
      }
      return Some(items[key]);
    }

    /** `Set` at time `now`: stamps the expiry and writes into the key's shard. */
    method Set(key: Key, state: SessionState, now: int)
      requires Valid()
      modifies shards
      ensures Valid()
      ensures shards[..] == Put(old(shards[..]), key, WithExpiry(state, now))
    {
      var i := GetShard(key);
      shards[i] := shards[i][key := WithExpiry(state, now)];
    }

    /** The scan phase for shard `i`, under its read lock. */
    method ScanShard(i: nat, now: int) returns (expiredKeys: seq<Key>)
      requires Valid() && i < NUM_SHARDS
      ensures forall k :: k in expiredKeys <==> k in Stale(shards[i], now)
    {
      expiredKeys := [];
      var items := shards[i];
      var rest := items.Keys;
      while rest != {}
        invariant rest <= items.Keys
        invariant forall k :: k in expiredKeys <==> k in items && k !in rest && Expired(items[k], now)
        decreases rest
      {
        var k :| k in rest;
        rest := rest - {k};
        if Expired(items[k], now) {
          expiredKeys := expiredKeys + [k];
        }
      }
    }

    /** The delete phase for shard `i`, under its write lock, with the re-check of each key. */
    method DeleteKeys(i: nat, expiredKeys: seq<Key>, now: int)
      requires Valid() && i < NUM_SHARDS
      modifies shards
      ensures Valid()
      ensures shards[..] == old(shards[..])[i := Purged(old(shards[i]), KeySet(expiredKeys), now)]
    {
      ghost var before := shards[i];
      for j := 0 to |expiredKeys|
        invariant forall n :: 0 <= n < shards.Length && n != i ==> shards[n] == old(shards[n])
        invariant shards[i] == Purged(before, KeySet(expiredKeys[..j]), now)
      {
        var k := expiredKeys[j];
        KeySetStep(expiredKeys, j);
        if k in shards[i] && Expired(shards[i][k], now) {
          shards[i] := map x | x in shards[i] && x != k :: shards[i][x];
        }
      }
      assert expiredKeys[..|expiredKeys|] == expiredKeys;
    }

    /** `cleanup`: both phases, shard after shard. Run alone it removes exactly the expired entries. */
    method Cleanup(now: int)
      requires Valid()
      modifies shards
      ensures Valid()
      ensures forall k :: Lookup(shards[..], k) == Live(old(Lookup(shards[..], k)), now)
    {
      ghost var before := shards[..];
      for i := 0 to NUM_SHARDS
        invariant Valid()
        invariant forall n :: i <= n < NUM_SHARDS ==> shards[n] == before[n]
        invariant forall n :: 0 <= n < i ==> shards[n] == Purged(before[n], Stale(before[n], now), now)
      {
        var expiredKeys := ScanShard(i, now);
        assert KeySet(expiredKeys) == Stale(shards[i], now);
        if |expiredKeys| == 0 {
          NothingStale(shards[i], now);
          continue;
        }
        DeleteKeys(i, expiredKeys, now);
      }
    }
  }

  function KeySet(keys: seq<Key>): set<Key> {
    set k | k in keys
  }

  lemma KeySetStep(keys: seq<Key>, j: nat)
    requires j < |keys|
    ensures KeySet(keys[..j + 1]) == KeySet(keys[..j]) + {keys[j]}
  {
    assert keys[..j + 1] == keys[..j] + [keys[j]];
  }

  lemma NothingStale(shard: map<Key, SessionState>, now: int)
    requires Stale(shard, now) == {}
    ensures Purged(shard, Stale(shard, now), now) == shard
  {
  }

  /**
   What was set at `now` can be got for fifteen minutes, and not after; every other key is
   as before.
   */
  lemma SetThenGet(shards: Shards, key: Key, state: SessionState, now: int, t: int, other: Key)
    requires |shards| == NUM_SHARDS
    ensures var after := Put(shards, key, WithExpiry(state, now));
      && Live(Lookup(after, key), t) ==
           (if t <= now + 900_000_000_000 then Some(state.(expiresAt := now + 900_000_000_000)) else None)
      && (other != key ==> Lookup(after, other) == Lookup(shards, other))
  {
    hide ShardOf;
  }

  /** Published FNV-1a hashes: of the empty text, of "a" and of "foobar"; the shard is in the low six bits. */
  lemma FnvExamples()
    ensures HashFrom(FNV_OFFSET, []) == 0x811c9dc5 && ShardOf([]) == 5
    ensures HashFrom(FNV_OFFSET, [0x61]) == 0xe40c292c && ShardOf([0x61]) == 44
    ensures HashFrom(FNV_OFFSET, [0x66, 0x6f, 0x6f, 0x62, 0x61, 0x72]) == 0xbf9cf968
  {
    var f: Key := [0x66, 0x6f, 0x6f, 0x62, 0x61, 0x72];
    assert HashByte(FNV_OFFSET, 0x61) == 0xe40c292c;
    var a: Key := [0x61];
    assert a[1..] == [];
    assert f[1..] == [0x6f, 0x6f, 0x62, 0x61, 0x72] && f[1..][1..] == [0x6f, 0x62, 0x61, 0x72];
  }
}
