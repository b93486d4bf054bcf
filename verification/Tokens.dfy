/**
 The placeholders `[TYPE_N]` that `Mask` issues, and how the replacer treats them.
 Type names are arbitrary strings without square brackets.
 */
module Tokens {
  import opened Common
  import opened Decimal
  import opened Spans
  import opened Replacer

  predicate BracketFree(s: string) {
    forall i :: 0 <= i < |s| ==> s[i] != '[' && s[i] != ']'
  }

  /** `fmt.Sprintf("[%s_%d]", typ, n)` */
  function Placeholder(typ: string, n: nat): string {
    "[" + typ + "_" + Itoa(n) + "]"
  }

  /** Opens with its only `[` and closes with its only `]`. */
  predicate IsToken(k: string) {
    && |k| >= 2 && k[0] == '[' && k[|k| - 1] == ']'
    && forall i :: 0 < i < |k| - 1 ==> k[i] != '[' && k[i] != ']'
  }

  lemma PlaceholderShape(typ: string, n: nat)
    ensures var p, d := Placeholder(typ, n), |Itoa(n)|;
      && |p| == |typ| + d + 3
      && p[1..|typ| + 1] == typ && p[|typ| + 1] == '_'
      && p[|typ| + 2..|p| - 1] == Itoa(n)
      && forall i :: |typ| + 2 <= i < |p| - 1 ==> IsDigit(p[i])
    ensures BracketFree(typ) ==> IsToken(Placeholder(typ, n))
  {
    var p, d := Placeholder(typ, n), Itoa(n);
    forall i | 0 <= i < |p|
      ensures p[i] == if i == 0 then '[' else if i <= |typ| then typ[i - 1]
                      else if i == |typ| + 1 then '_' else if i < |p| - 1 then d[i - |typ| - 2] else ']'
    {
    }
    assert p[1..|typ| + 1] == typ;
    assert p[|typ| + 2..|p| - 1] == d;
  }

  /** The type name and the number can be read back, even when type names contain underscores. */
  lemma PlaceholderInjective(t1: string, n1: nat, t2: string, n2: nat)
    requires Placeholder(t1, n1) == Placeholder(t2, n2)
    ensures t1 == t2 && n1 == n2
  {
    PlaceholderShape(t1, n1);
    PlaceholderShape(t2, n2);
    var p := Placeholder(t1, n1);
    if |t1| < |t2| {
      assert false;
    } else if |t2| < |t1| {
      assert false;
    } else {
      PadInjective(n1, n2, 1, 1);
    }
  }

  /** No token is a proper prefix of another. */
  lemma TokensPrefixFree(k1: string, k2: string)
    requires IsToken(k1) && IsToken(k2) && k1 <= k2
    ensures k1 == k2
  {
    assert k2[|k1| - 1] == ']';
  }

  /** At most one token matches at the start of a text. */
  lemma OneTokenMatches(k1: string, k2: string, s: string)
    requires IsToken(k1) && IsToken(k2) && k1 <= s && k2 <= s
    ensures k1 == k2
  {
    if |k1| <= |k2| {
      TokensPrefixFree(k1, k2);
    } else {
      TokensPrefixFree(k2, k1);
    }
  }

  // ----- the keys one call issues -----

  /** How many of the first `n` spans have type `typ`. */
  function Count(spans: seq<Span>, typ: string, n: nat): nat
    requires n <= |spans|
  {
    if n == 0 then 0
    else Count(spans, typ, n - 1) + (if spans[n - 1].typ == typ then 1 else 0)
  }

  /** The placeholder of each span: numbered per type, from one. */
  function TokenKeys(spans: seq<Span>): (keys: seq<string>)
    ensures |keys| == |spans|
  {
    seq(|spans|, i requires 0 <= i < |spans| => Placeholder(spans[i].typ, Count(spans, spans[i].typ, i + 1)))
  }

  lemma {:induction false} CountMonotone(spans: seq<Span>, typ: string, i: nat, j: nat)
    requires i <= j <= |spans|
    ensures Count(spans, typ, i) <= Count(spans, typ, j)
    decreases j
  {
    if i < j {
      CountMonotone(spans, typ, i, j - 1);
    }
  }

  /** Issued placeholders are pairwise distinct. */
  lemma TokenKeysDistinct(spans: seq<Span>, i: nat, j: nat)
    requires i < j < |spans|
    ensures TokenKeys(spans)[i] != TokenKeys(spans)[j]
  {
    var a, b := spans[i].typ, spans[j].typ;
    if TokenKeys(spans)[i] == TokenKeys(spans)[j] {
      PlaceholderInjective(a, Count(spans, a, i + 1), b, Count(spans, b, j + 1));
      CountMonotone(spans, a, i + 1, j);
    }
  }

  lemma {:induction false} NumberReached(spans: seq<Span>, typ: string, k: nat, n: nat) returns (i: nat)
    requires n <= |spans| && 1 <= k <= Count(spans, typ, n)
    ensures i < n && spans[i].typ == typ && Count(spans, typ, i + 1) == k
  {
    if Count(spans, typ, n - 1) >= k {
      i := NumberReached(spans, typ, k, n - 1);
    } else {
      i := n - 1;
    }
  }

  lemma IssuedInRange(spans: seq<Span>, typ: string, k: nat)
    requires Placeholder(typ, k) in TokenKeys(spans)
    ensures 1 <= k <= Count(spans, typ, |spans|)
  {
    hide Placeholder;
    var keys := TokenKeys(spans);
    var i :| 0 <= i < |keys| && keys[i] == Placeholder(typ, k);
    PlaceholderInjective(typ, k, spans[i].typ, Count(spans, spans[i].typ, i + 1));
    CountMonotone(spans, typ, i + 1, |spans|);
  }

  lemma InRangeIssued(spans: seq<Span>, typ: string, k: nat)
    requires 1 <= k <= Count(spans, typ, |spans|)
    ensures Placeholder(typ, k) in TokenKeys(spans)
  {
    hide Placeholder;
    var i := NumberReached(spans, typ, k, |spans|);
    var keys := TokenKeys(spans);
    assert keys[i] == Placeholder(typ, k);
  }

  /** For each type the issued keys are exactly `[TYPE_1]` to `[TYPE_n]`, `n` the number of its spans. */
  lemma TokenKeysExact(spans: seq<Span>, typ: string, k: nat)
    ensures Placeholder(typ, k) in TokenKeys(spans) <==> 1 <= k <= Count(spans, typ, |spans|)
  {
    if Placeholder(typ, k) in TokenKeys(spans) {
      IssuedInRange(spans, typ, k);
    }
    if 1 <= k <= Count(spans, typ, |spans|) {
      InRangeIssued(spans, typ, k);
    }
  }

  ghost predicate TypesBracketFree(spans: seq<Span>) {
    forall s :: s in spans ==> BracketFree(s.typ)
  }

  lemma TokenKeysAreTokens(spans: seq<Span>)
    requires TypesBracketFree(spans)
    ensures forall k :: k in TokenKeys(spans) ==> IsToken(k)
  {
    forall k | k in TokenKeys(spans) ensures IsToken(k) {
      var i :| 0 <= i < |spans| && TokenKeys(spans)[i] == k;
      assert spans[i] in spans;
      PlaceholderShape(spans[i].typ, Count(spans, spans[i].typ, i + 1));
    }
  }

  // ----- replacing tokens -----

  /** All keys of `m` are tokens. */
  ghost predicate TokenMap(m: map<string, string>) {
    forall k :: k in m ==> IsToken(k)
  }

  /** A token that starts in `a` cannot reach past the next `[`. */
  lemma MatchStaysBefore(m: map<string, string>, a: string, t: string)
    requires TokenMap(m) && a != [] && (t == [] || t[0] == '[')
    ensures MatchLen(m, a + t, |a + t|) == MatchLen(m, a, |a|)
  {
    var s := a + t;
    var n := MatchLen(m, a, |a|);
    assert s[..n] == a[..n];
    forall k {:trigger s[..k]} | n < k <= |s| ensures s[..k] !in m {
      if k <= |a| {
        assert s[..k] == a[..k];
      } else {
        assert s[..k][|a|] == '[';
      }
    }
    MatchLenIs(m, s, n);
  }

  /** Before a `[` the text splits: both parts are replaced independently. */
  lemma {:induction false} SplitAtBracket(m: map<string, string>, a: string, t: string)
    requires TokenMap(m) && (t == [] || t[0] == '[')
    ensures Replace(m, a + t) == Replace(m, a) + Replace(m, t)
    decreases |a|
  {
    if a == [] {
      assert a + t == t;
    } else {
      MatchStaysBefore(m, a, t);
      var n := MatchLen(m, a, |a|);
      if n > 0 {
        assert (a + t)[..n] == a[..n] && (a + t)[n..] == a[n..] + t;
        SplitAtBracket(m, a[n..], t);
        Associative(m[a[..n]], Replace(m, a[n..]), Replace(m, t));
      } else {
        assert (a + t)[1..] == a[1..] + t;
        SplitAtBracket(m, a[1..], t);
        Associative([a[0]], Replace(m, a[1..]), Replace(m, t));
      }
    }
  }

  /**
   Demasking is compositional: around any issued token the two sides are
   demasked on their own, whatever they contain.
   */
  lemma DemaskCompositional(m: map<string, string>, a: string, k: string, b: string)
    requires TokenMap(m) && k in m
    ensures Replace(m, a + k + b) == Replace(m, a) + m[k] + Replace(m, b)
  {
    assert a + k + b == a + (k + b);
    SplitAtBracket(m, a, k + b);
    forall k' | k' in m && k' <= k + b ensures |k'| <= |k| {
      OneTokenMatches(k, k', k + b);
    }
    KeyReplaced(m, k, b);
    assert Replace(m, a) + (m[k] + Replace(m, b)) == Replace(m, a) + m[k] + Replace(m, b);
  }

  /** A model's reply: free text and issued tokens in any order, repeated or dropped at will. */
  datatype Part = Text(text: string) | Token(key: string)

  function PartText(p: Part): string {
    match p case Text(t) => t case Token(k) => k
  }

  function Rendered(parts: seq<Part>): string {
    if parts == [] then [] else PartText(parts[0]) + Rendered(parts[1..])
  }

  /** Every token of the reply was issued, and no two free texts are neighbours. */
  ghost predicate IsReply(m: map<string, string>, parts: seq<Part>) {
    && (forall i :: 0 <= i < |parts| && parts[i].Token? ==> parts[i].key in m)
    && (forall i :: 0 <= i < |parts| - 1 && parts[i].Text? ==> parts[i + 1].Token?)
  }

  /** What becomes of one part: free text is demasked on its own, a token is looked up. */
  function PartDemasked(m: map<string, string>, p: Part): string {
    match p
    case Text(t) => Replace(m, t)
    case Token(k) => if k in m then m[k] else k
  }

  function Expanded(m: map<string, string>, parts: seq<Part>): string {
    if parts == [] then [] else PartDemasked(m, parts[0]) + Expanded(m, parts[1..])
  }

  lemma TokenExpands(m: map<string, string>, k: string, rest: string)
    requires TokenMap(m) && k in m
    ensures Replace(m, k + rest) == m[k] + Replace(m, rest)
  {
    DemaskCompositional(m, [], k, rest);
    assert [] + k + rest == k + rest;
    assert Replace(m, []) == [];
    assert [] + m[k] + Replace(m, rest) == m[k] + Replace(m, rest);
  }

  lemma PartExpands(m: map<string, string>, p: Part, rest: string)
    requires TokenMap(m)
    requires p.Token? ==> p.key in m
    requires p.Text? ==> rest == [] || rest[0] == '['
    ensures Replace(m, PartText(p) + rest) == PartDemasked(m, p) + Replace(m, rest)
  {
    match p
    case Text(t) => SplitAtBracket(m, t, rest);
    case Token(k) => TokenExpands(m, k, rest);
  }

  lemma RenderedStart(m: map<string, string>, parts: seq<Part>)
    requires TokenMap(m) && IsReply(m, parts) && parts != [] && parts[0].Text?
    ensures Rendered(parts[1..]) == [] || Rendered(parts[1..])[0] == '['
  {
    if |parts| > 1 {
      assert parts[1..][0] == parts[1] && parts[1].key in m;
    }
  }

  /** A reply demasks part by part. */
  lemma {:induction false} ReplyExpands(m: map<string, string>, parts: seq<Part>)
    requires TokenMap(m) && IsReply(m, parts)
    ensures Replace(m, Rendered(parts)) == Expanded(m, parts)
  {
    if parts != [] {
      if parts[0].Text? {
        RenderedStart(m, parts);
      }
      PartExpands(m, parts[0], Rendered(parts[1..]));
      ReplyExpands(m, parts[1..]);
    }
  }

  // ----- counting brackets -----

  /** Number of `[` in `s`. */
  function Opens(s: string): nat {
    if s == [] then 0 else (if s[0] == '[' then 1 else 0) + Opens(s[1..])
  }

  lemma {:induction false} OpensConcat(s: string, t: string)
    ensures Opens(s + t) == Opens(s) + Opens(t)
  {
    if s == [] {
      assert s + t == t;
    } else {
      OpensConcat(s[1..], t);
      assert (s + t)[1..] == s[1..] + t;
    }
  }

  lemma {:induction false} NoOpens(s: string)
    requires '[' !in s
    ensures Opens(s) == 0
  {
    if s != [] {
      NoOpens(s[1..]);
    }
  }

  /** `k` occurs in `s`. */
  ghost predicate Occurs(k: string, s: string) {
    exists p :: 0 <= p <= |s| && k <= s[p..]
  }

  ghost predicate ValuesWithoutOpen(m: map<string, string>) {
    forall k :: k in m ==> '[' !in m[k]
  }

  /** Replacing tokens by bracket-free values removes one `[` for each replaced token. */
  lemma {:induction false} ReplaceLosesOpens(m: map<string, string>, s: string)
    requires TokenMap(m) && ValuesWithoutOpen(m)
    ensures Opens(Replace(m, s)) <= Opens(s)
    ensures (exists k :: k in m && Occurs(k, s)) ==> Opens(Replace(m, s)) < Opens(s)
    decreases |s|
  {
    if s == [] {
      forall k | k in m ensures !Occurs(k, s) {
      }
    } else {
      var n := MatchLen(m, s, |s|);
      if n > 0 {
        var k := s[..n];
        ReplaceLosesOpens(m, s[n..]);
        assert s == k + s[n..];
        OpensConcat(k, s[n..]);
        OpensConcat(m[k], Replace(m, s[n..]));
        NoOpens(m[k]);
        assert k[0] == '[';
      } else {
        ReplaceLosesOpens(m, s[1..]);
        assert s == [s[0]] + s[1..];
        OpensConcat([s[0]], s[1..]);
        OpensConcat([s[0]], Replace(m, s[1..]));
        forall k | k in m && Occurs(k, s) ensures Occurs(k, s[1..]) {
          OccursLater(m, k, s);
        }
      }
    }
  }

  lemma MatchSeen(m: map<string, string>, k: string, s: string)
    requires k in m && k != [] && k <= s[0..]
    ensures MatchLen(m, s, |s|) > 0
  {
    assert s[..|k|] == k;
  }

  lemma OccursLater(m: map<string, string>, k: string, s: string)
    requires k in m && k != [] && s != [] && Occurs(k, s) && MatchLen(m, s, |s|) == 0
    ensures Occurs(k, s[1..])
  {
    var p :| 0 <= p <= |s| && k <= s[p..];
    if p == 0 {
      MatchSeen(m, k, s);
    } else {
      assert s[1..][p - 1..] == s[p..];
    }
  }

  /** Text in which no token occurs is left alone. */
  lemma UntouchedText(m: map<string, string>, s: string)
    requires forall k :: k in m ==> !Occurs(k, s)
    ensures Replace(m, s) == s
  {
    forall p | 0 <= p < |s| ensures NoMatch(m, s[p..] + []) {
      assert s[p..] + [] == s[p..];
    }
    GapCopied(m, s, []);
    assert s + [] == s;
  }
}
