/**
 `Demask` of internal/service/service.go: longer keys first, then one pass of
 `strings.NewReplacer`. Texts and keys are sequences of code points; the sort key
 is the length in UTF-8 bytes, as in the source.
 */
module Replacer {
  import opened SortSlice

  /** Number of bytes in the UTF-8 encoding of `c`. */
  function Utf8Len(c: char): (n: nat)
    ensures 1 <= n <= 4
  {
    if c as int < 0x80 then 1
    else if c as int < 0x800 then 2
    else if c as int < 0x1_0000 then 3
    else 4
  }

  /** Go's `len(s)`. */
  function ByteLen(s: string): (n: nat)
    ensures n >= |s|
  {
    if s == [] then 0 else Utf8Len(s[0]) + ByteLen(s[1..])
  }

  /** A key and its replacement. */
  datatype Pair = Pair(key: string, value: string)

  // ----- strings.NewReplacer -----

  /** Index of the first pair, in argument order, whose key is a prefix of `s`; `|pairs|` if none. */
  function FirstMatch(pairs: seq<Pair>, s: string): (i: nat)
    ensures i <= |pairs|
    ensures i < |pairs| ==> pairs[i].key <= s
    ensures forall j :: 0 <= j < i ==> !(pairs[j].key <= s)
  {
    if pairs == [] then 0
    else if pairs[0].key <= s then 0
    else 1 + FirstMatch(pairs[1..], s)
  }

  predicate NonEmptyKeys(pairs: seq<Pair>) {
    forall i :: 0 <= i < |pairs| ==> pairs[i].key != []
  }

  /**
   The documented behaviour of `strings.NewReplacer(...).Replace`: from left to
   right, without overlap, earlier pairs first, inserted text never rescanned.
   */
  function ReplacePairs(pairs: seq<Pair>, s: string): string
    requires NonEmptyKeys(pairs)
    decreases |s|
  {
    if s == [] then []
    else
      var i := FirstMatch(pairs, s);
      if i < |pairs| then pairs[i].value + ReplacePairs(pairs, s[|pairs[i].key|..])
      else [s[0]] + ReplacePairs(pairs, s[1..])
  }

  // ----- the order-free meaning: longest match -----

  /** Length of the longest non-empty key of `m` that is a prefix of `s[..len]`, or 0. */
  function MatchLen(m: map<string, string>, s: string, len: nat): (n: nat)
    requires len <= |s|
    ensures n <= len && (n > 0 ==> s[..n] in m)
    ensures forall k :: n < k <= len ==> s[..k] !in m
  {
    if len == 0 then 0 else if s[..len] in m then len else MatchLen(m, s, len - 1)
  }

  /** Left to right, replace the longest key that matches, else keep one code point. */
  function Replace(m: map<string, string>, s: string): string
    decreases |s|
  {
    if s == [] then []
    else
      var n := MatchLen(m, s, |s|);
      if n > 0 then m[s[..n]] + Replace(m, s[n..]) else [s[0]] + Replace(m, s[1..])
  }

  lemma {:induction false} MatchLenIs(m: map<string, string>, s: string, n: nat)
    requires n <= |s|
    requires n > 0 ==> s[..n] in m
    requires forall k {:trigger s[..k]} :: n < k <= |s| ==> s[..k] !in m
    ensures MatchLen(m, s, |s|) == n
  {
  }

  // ----- the argument order does not matter -----

  /** `pairs` lists exactly the entries of `m`, longer keys (in bytes) first. */
  ghost predicate Lists(pairs: seq<Pair>, m: map<string, string>) {
    && (forall i :: 0 <= i < |pairs| ==> pairs[i].key in m && pairs[i].value == m[pairs[i].key])
    && (forall k :: k in m ==> exists i :: 0 <= i < |pairs| && pairs[i].key == k)
    && (forall i, j :: 0 <= i < j < |pairs| ==> ByteLen(pairs[i].key) >= ByteLen(pairs[j].key))
  }

  lemma {:induction false} ByteLenConcat(a: string, b: string)
    ensures ByteLen(a + b) == ByteLen(a) + ByteLen(b)
  {
    if a == [] {
      assert a + b == b;
    } else {
      ByteLenConcat(a[1..], b);
      assert (a + b)[1..] == a[1..] + b;
    }
  }

  /** Of two keys that match at the same place, the one with more bytes is the longer one. */
  lemma PrefixBytes(a: string, b: string, s: string)
    requires a <= s && b <= s && ByteLen(a) >= ByteLen(b)
    ensures |a| >= |b|
  {
    if |a| < |b| {
      assert b == a + b[|a|..];
      ByteLenConcat(a, b[|a|..]);
    }
  }

  lemma NoLongerKey(pairs: seq<Pair>, m: map<string, string>, s: string, k: string)
    requires Lists(pairs, m) && k in m && k <= s
    ensures FirstMatch(pairs, s) < |pairs| && |k| <= |pairs[FirstMatch(pairs, s)].key|
  {
    var i := FirstMatch(pairs, s);
    var j :| 0 <= j < |pairs| && pairs[j].key == k;
    assert i <= j;
    PrefixBytes(pairs[i].key, k, s);
  }

  lemma FirstIsLongest(pairs: seq<Pair>, m: map<string, string>, s: string)
    requires Lists(pairs, m) && "" !in m
    ensures var i := FirstMatch(pairs, s);
      MatchLen(m, s, |s|) == if i < |pairs| then |pairs[i].key| else 0
  {
    var i := FirstMatch(pairs, s);
    var n := MatchLen(m, s, |s|);
    if n > 0 {
      NoLongerKey(pairs, m, s, s[..n]);
    }
    if i < |pairs| {
      assert pairs[i].key == s[..|pairs[i].key|];
    }
  }

  /**
   Any listing of the mapping by descending byte length gives the same text: neither
   the map's iteration order nor the unstable sort can show through.
   */
  lemma {:induction false} OrderIrrelevant(pairs: seq<Pair>, m: map<string, string>, s: string)
    requires Lists(pairs, m) && NonEmptyKeys(pairs) && "" !in m
    ensures ReplacePairs(pairs, s) == Replace(m, s)
    decreases |s|
  {
    if s != [] {
      FirstIsLongest(pairs, m, s);
      var i := FirstMatch(pairs, s);
      if i < |pairs| {
        var n := |pairs[i].key|;
        assert s[..n] == pairs[i].key;
        OrderIrrelevant(pairs, m, s[n..]);
      } else {
        OrderIrrelevant(pairs, m, s[1..]);
      }
    }
  }

  lemma {:induction false} ReplaceEmptyMap(s: string)
    ensures Replace(map[], s) == s
  {
    if s != [] {
      ReplaceEmptyMap(s[1..]);
    }
  }

  predicate LongerKey(x: string, y: string) {
    ByteLen(x) > ByteLen(y)
  }

  /** The mapping's keys in some order that `sort.Slice` may leave behind. */
  method SortedKeys(mapping: map<string, string>) returns (keys: array<string>)
    ensures fresh(keys) && Sorted(LongerKey, keys[..])
    ensures forall k :: k in mapping <==> k in keys[..]
  {
    var collected: seq<string> := [];
    var rest := mapping.Keys;
    while rest != {}
      invariant rest <= mapping.Keys
      invariant forall k :: k in mapping <==> k in collected || k in rest
      decreases rest
    {
      var k :| k in rest;
      collected := collected + [k];
      rest := rest - {k};
    }
    keys := new string[|collected|](i requires 0 <= i < |collected| => collected[i]);
    assert keys[..] == collected;
    Sort(keys, LongerKey);
    forall k ensures k in mapping <==> k in keys[..] {
      assert k in collected <==> k in multiset(collected);
      assert k in keys[..] <==> k in multiset(keys[..]);
    }
  }

  lemma ListsSorted(keys: seq<string>, pairs: seq<Pair>, m: map<string, string>)
    requires Sorted(LongerKey, keys)
    requires forall k :: k in m <==> k in keys
    requires |pairs| == |keys|
    requires forall j :: 0 <= j < |keys| ==> keys[j] in m && pairs[j] == Pair(keys[j], m[keys[j]])
    ensures Lists(pairs, m)
  {
    forall k | k in m ensures exists i :: 0 <= i < |pairs| && pairs[i].key == k {
      var i :| 0 <= i < |keys| && keys[i] == k;
      assert pairs[i].key == k;
    }
    forall i, j | 0 <= i < j < |pairs| ensures ByteLen(pairs[i].key) >= ByteLen(pairs[j].key) {
      assert !LongerKey(keys[j], keys[i]);
    }
  }

  /**
   `Demask`: collects the keys in any order, sorts them by descending byte length
   and runs the replacer. No mapping the service issues contains the empty key.
   */
  method Demask(input: string, mapping: map<string, string>) returns (out: string)
    requires "" !in mapping
    ensures out == Replace(mapping, input)
  {
    if mapping == map[] || input == "" {
      if mapping == map[] {
        ReplaceEmptyMap(input);
      }
      return input;
    }
    var keys := SortedKeys(mapping);
    var pairs: seq<Pair> := [];
    for i := 0 to keys.Length
      invariant |pairs| == i
      invariant forall j :: 0 <= j < i ==>
        keys[..][j] in mapping && pairs[j] == Pair(keys[..][j], mapping[keys[..][j]])
    {
      assert keys[i] in keys[..];
      pairs := pairs + [Pair(keys[i], mapping[keys[i]])];
    }
    ListsSorted(keys[..], pairs, mapping);
    OrderIrrelevant(pairs, mapping, input);
    out := ReplacePairs(pairs, input);
  }

  // ----- segments -----

  /** No non-empty key of `m` is a prefix of `s`. */
  ghost predicate NoMatch(m: map<string, string>, s: string) {
    forall k :: k in m && k != [] ==> !(k <= s)
  }

  /** Text in front of `t` where no key starts is copied unchanged. */
  lemma {:induction false} GapCopied(m: map<string, string>, gap: string, t: string)
    requires forall p :: 0 <= p < |gap| ==> NoMatch(m, gap[p..] + t)
    ensures Replace(m, gap + t) == gap + Replace(m, t)
  {
    if gap == [] {
      assert gap + t == t;
    } else {
      var s := gap + t;
      assert gap[0..] + t == s && NoMatch(m, s);
      forall k {:trigger s[..k]} | 0 < k <= |s| ensures s[..k] !in m {
        assert s[..k] <= s;
      }
      MatchLenIs(m, s, 0);
      assert s[1..] == gap[1..] + t;
      forall p | 0 <= p < |gap[1..]| ensures NoMatch(m, gap[1..][p..] + t) {
        assert gap[1..][p..] == gap[p + 1..];
      }
      GapCopied(m, gap[1..], t);
    }
  }

  /** A key that no longer key beats is replaced by its value. */
  lemma KeyReplaced(m: map<string, string>, k: string, t: string)
    requires k in m && k != []
    requires forall k' :: k' in m && |k'| > |k| ==> !(k' <= k + t)
    ensures Replace(m, k + t) == m[k] + Replace(m, t)
  {
    var s := k + t;
    assert s[..|k|] == k && s[|k|..] == t;
    forall n {:trigger s[..n]} | |k| < n <= |s| ensures s[..n] !in m {
      assert s[..n] <= s;
    }
    MatchLenIs(m, s, |k|);
  }
}
