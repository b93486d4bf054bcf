/**
 Rewriting a text span by span: the shape shared by the three maskers, and the general
 condition under which the replacer undoes it.
 */
module Weaving {
  import opened Common
  import opened Spans
  import opened Replacer

  /** One masked span: the unmasked text before it, its own text, and what takes its place. */
  datatype Piece = Piece(gap: string, original: string, key: string)

  /** The text with each piece's own text, or with what takes its place. */
  function Filled(ps: seq<Piece>, rewritten: bool, tail: string): string {
    if ps == [] then tail
    else ps[0].gap + ((if rewritten then ps[0].key else ps[0].original) + Filled(ps[1..], rewritten, tail))
  }

  /** The rewritten text. */
  function Woven(ps: seq<Piece>, tail: string): string {
    Filled(ps, true, tail)
  }

  /** The text before rewriting. */
  function Plain(ps: seq<Piece>, tail: string): string {
    Filled(ps, false, tail)
  }

  /** The reverse mapping, filled from left to right. */
  function MappingOf(ps: seq<Piece>): map<string, string> {
    if ps == [] then map[]
    else
      var last := ps[|ps| - 1];
      MappingOf(ps[..|ps| - 1])[last.key := last.original]
  }

  lemma {:induction false} FilledTail(ps: seq<Piece>, rewritten: bool, s: string, t: string)
    ensures Filled(ps, rewritten, s + t) == Filled(ps, rewritten, s) + t
  {
    if ps != [] {
      var g, k, r := ps[0].gap, if rewritten then ps[0].key else ps[0].original, Filled(ps[1..], rewritten, s);
      FilledTail(ps[1..], rewritten, s, t);
      Associative(k, r, t);
      Associative(g, k + r, t);
    }
  }

  lemma {:induction false} FilledAppend(ps: seq<Piece>, rewritten: bool, p: Piece, tail: string)
    ensures Filled(ps + [p], rewritten, tail) ==
      Filled(ps, rewritten, p.gap + ((if rewritten then p.key else p.original) + tail))
  {
    if ps == [] {
      assert [] + [p] == [p] && [p][1..] == [];
    } else {
      FilledAppend(ps[1..], rewritten, p, tail);
      assert (ps + [p])[1..] == ps[1..] + [p];
    }
  }

  lemma FilledStep(ps: seq<Piece>, rewritten: bool, p: Piece)
    ensures Filled(ps + [p], rewritten, "") ==
      Filled(ps, rewritten, "") + p.gap + (if rewritten then p.key else p.original)
  {
    var k := if rewritten then p.key else p.original;
    FilledAppend(ps, rewritten, p, "");
    assert p.gap + (k + "") == "" + (p.gap + k);
    FilledTail(ps, rewritten, "", p.gap + k);
    Associative(Filled(ps, rewritten, ""), p.gap, k);
  }

  lemma FilledEnd(ps: seq<Piece>, rewritten: bool, tail: string)
    ensures Filled(ps, rewritten, tail) == Filled(ps, rewritten, "") + tail
  {
    FilledTail(ps, rewritten, "", tail);
    assert "" + tail == tail;
  }

  /** One turn of a masker's loop: the builder takes the gap and the key. */
  lemma WovenStep(ps: seq<Piece>, p: Piece)
    ensures Woven(ps + [p], "") == Woven(ps, "") + p.gap + p.key
  {
    FilledStep(ps, true, p);
  }

  /** After the loop the builder takes the rest of the text. */
  lemma WovenEnd(ps: seq<Piece>, tail: string)
    ensures Woven(ps, tail) == Woven(ps, "") + tail
  {
    FilledEnd(ps, true, tail);
  }

  // ----- cutting a text at its spans -----

  /** Separated, non-empty spans inside a text of length `n`. */
  ghost predicate Fits(spans: seq<Span>, n: nat) {
    Separated(spans) && Within(spans, n)
  }

  /** Where the text continues after the first `i` spans (`lastIdx`). */
  function Cursor(spans: seq<Span>, i: nat): nat
    requires i <= |spans|
  {
    if i == 0 then 0 else spans[i - 1].end
  }

  /** The cursor never passes the next span's start: the maskers' skip never fires. */
  lemma CursorFits(spans: seq<Span>, n: nat, i: nat)
    requires Fits(spans, n) && i <= |spans|
    ensures Cursor(spans, i) <= n
    ensures i < |spans| ==> Cursor(spans, i) <= spans[i].start < spans[i].end <= n
  {
    if i > 0 {
      assert spans[i - 1] in spans;
    }
    if i < |spans| {
      assert spans[i] in spans;
    }
  }

  /** The text that span `i` masks. */
  function Original(input: string, spans: seq<Span>, i: nat): string
    requires Fits(spans, |input|) && i < |spans|
  {
    CursorFits(spans, |input|, i);
    input[spans[i].start..spans[i].end]
  }

  /** Span `i` with the unmasked text before it and its key. */
  function PieceAt(input: string, spans: seq<Span>, key: string, i: nat): Piece
    requires Fits(spans, |input|) && i < |spans|
  {
    CursorFits(spans, |input|, i);
    Piece(input[Cursor(spans, i)..spans[i].start], Original(input, spans, i), key)
  }

  /** The first `|keys|` spans with their keys. */
  function Pieces(input: string, spans: seq<Span>, keys: seq<string>): (ps: seq<Piece>)
    requires Fits(spans, |input|) && |keys| <= |spans|
    ensures |ps| == |keys|
  {
    seq(|keys|, i requires 0 <= i < |keys| => PieceAt(input, spans, keys[i], i))
  }

  lemma PiecesStep(input: string, spans: seq<Span>, keys: seq<string>, key: string)
    requires Fits(spans, |input|) && |keys| < |spans|
    ensures Pieces(input, spans, keys + [key]) == Pieces(input, spans, keys) + [PieceAt(input, spans, key, |keys|)]
  {
  }

  /** The text after the last span. */
  function Tail(input: string, spans: seq<Span>): string
    requires Fits(spans, |input|)
  {
    CursorFits(spans, |input|, |spans|);
    input[Cursor(spans, |spans|)..]
  }

  lemma NothingPlain()
    ensures Plain([], "") == ""
  {
  }

  lemma {:induction false} PlainPrefix(input: string, spans: seq<Span>, keys: seq<string>)
    requires Fits(spans, |input|) && |keys| <= |spans|
    ensures Cursor(spans, |keys|) <= |input|
    ensures Plain(Pieces(input, spans, keys), "") == input[..Cursor(spans, |keys|)]
  {
    hide Fits, Filled;
    CursorFits(spans, |input|, |keys|);
    if keys == [] {
      NothingPlain();
    } else {
      var k := |keys| - 1;
      assert keys == keys[..k] + [keys[k]];
      PlainPrefix(input, spans, keys[..k]);
      PiecesStep(input, spans, keys[..k], keys[k]);
      FilledStep(Pieces(input, spans, keys[..k]), false, PieceAt(input, spans, keys[k], k));
      CursorFits(spans, |input|, k);
    }
  }

  /** Cutting loses nothing: gaps, originals and tail make up the text. */
  lemma PlainIsInput(input: string, spans: seq<Span>, keys: seq<string>)
    requires Fits(spans, |input|) && |keys| == |spans|
    ensures Plain(Pieces(input, spans, keys), Tail(input, spans)) == input
  {
    PlainPrefix(input, spans, keys);
    FilledEnd(Pieces(input, spans, keys), false, Tail(input, spans));
  }

  // ----- the mapping -----

  ghost predicate DistinctKeys(ps: seq<Piece>) {
    forall i, j :: 0 <= i < j < |ps| ==> ps[i].key != ps[j].key
  }

  /** The mapping gives back every piece's text. */
  ghost predicate Maps(ps: seq<Piece>, m: map<string, string>) {
    forall i :: 0 <= i < |ps| ==> ps[i].key in m && m[ps[i].key] == ps[i].original
  }

  lemma {:induction false} MappingDomain(ps: seq<Piece>, k: string)
    ensures k in MappingOf(ps) <==> exists i :: 0 <= i < |ps| && ps[i].key == k
  {
    if ps != [] {
      var n := |ps| - 1;
      MappingDomain(ps[..n], k);
      if k in MappingOf(ps[..n]) {
        var i :| 0 <= i < n && ps[..n][i].key == k;
        assert ps[i].key == k;
      }
      if i :| 0 <= i < |ps| && ps[i].key == k {
        assert i < n ==> ps[..n][i].key == k;
      }
    }
  }

  /** With distinct keys the mapping has exactly one entry per span, and it holds the span's text. */
  lemma {:induction false} MappingEntries(ps: seq<Piece>)
    requires DistinctKeys(ps)
    ensures |MappingOf(ps)| == |ps| && Maps(ps, MappingOf(ps))
  {
    if ps != [] {
      var n := |ps| - 1;
      MappingEntries(ps[..n]);
      MappingDomain(ps[..n], ps[n].key);
      assert ps[n].key !in MappingOf(ps[..n]);
      forall i | 0 <= i < n ensures ps[i].key in MappingOf(ps) && MappingOf(ps)[ps[i].key] == ps[i].original {
        assert ps[..n][i] == ps[i];
      }
    }
  }

  // ----- undoing it -----

  /** No key matches the rewritten text at any position of `gap`, which `rest` follows. */
  ghost predicate GapClear(m: map<string, string>, gap: string, rest: string) {
    forall p :: 0 <= p < |gap| ==> NoMatch(m, gap[p..] + rest)
  }

  /** No key strictly longer than `key` matches where it was inserted. */
  ghost predicate KeyLongest(m: map<string, string>, key: string, rest: string) {
    forall k :: k in m && |k| > |key| ==> !(k <= key + rest)
  }

  /** In every gap no key matches, and every inserted key is the longest match at its place. */
  ghost predicate Restorable(m: map<string, string>, ps: seq<Piece>, tail: string) {
    if ps == [] then GapClear(m, tail, "")
    else
      && GapClear(m, ps[0].gap, ps[0].key + Woven(ps[1..], tail))
      && KeyLongest(m, ps[0].key, Woven(ps[1..], tail))
      && Restorable(m, ps[1..], tail)
  }

  /**
   The segment lemma. If no key matches at any position of a gap and each inserted key is
   the longest match at its place, one pass of the replacer restores the text.
   */
  lemma {:induction false} TextRestored(m: map<string, string>, ps: seq<Piece>, tail: string)
    requires Maps(ps, m) && (forall i :: 0 <= i < |ps| ==> ps[i].key != [])
    requires Restorable(m, ps, tail)
    ensures Replace(m, Woven(ps, tail)) == Plain(ps, tail)
  {
    if ps == [] {
      GapCopied(m, tail, "");
      assert tail + "" == tail;
    } else {
      var rest := Woven(ps[1..], tail);
      GapCopied(m, ps[0].gap, ps[0].key + rest);
      KeyReplaced(m, ps[0].key, rest);
      TextRestored(m, ps[1..], tail);
    }
  }

  // ----- when it is undone: the exact condition -----

  /**
   Every accident shows: where a key matches out of place, in a gap or beyond an inserted
   key, its value is not what the text has there.
   */
  ghost predicate AccidentsVisible(m: map<string, string>, ps: seq<Piece>, tail: string) {
    if ps == [] then GapAccidentsVisible(m, tail, "", "")
    else
      var woven, plain := Woven(ps[1..], tail), Plain(ps[1..], tail);
      && GapAccidentsVisible(m, ps[0].gap, ps[0].key + woven, ps[0].original + plain)
      && (forall k :: k in m && |k| > |ps[0].key| && k <= ps[0].key + woven ==> !(m[k] <= ps[0].original + plain))
      && AccidentsVisible(m, ps[1..], tail)
  }

  ghost predicate GapAccidentsVisible(m: map<string, string>, gap: string, woven: string, plain: string) {
    forall p, k :: 0 <= p < |gap| && k in m && k != [] && k <= gap[p..] + woven ==> !(m[k] <= gap[p..] + plain)
  }

  /** The longest match at the start of a text is what the replacer inserts first. */
  lemma FirstReplaced(m: map<string, string>, k: string, s: string) returns (l: string, rest: string)
    requires k in m && k != [] && k <= s
    ensures l in m && l <= s && |l| >= |k|
    ensures Replace(m, s) == m[l] + rest
  {
    var n := MatchLen(m, s, |s|);
    assert s[..|k|] == k;
    l, rest := s[..n], Replace(m, s[n..]);
  }

  /** The first accident in a gap: everything before it is copied. */
  lemma {:induction false} FirstAccident(m: map<string, string>, gap: string, woven: string)
    returns (p: nat, k: string, rest: string)
    requires !GapClear(m, gap, woven)
    ensures p < |gap| && k in m && k != [] && k <= gap[p..] + woven
    ensures Replace(m, gap + woven) == gap[..p] + (m[k] + rest)
  {
    if NoMatch(m, gap[0..] + woven) {
      var tail := gap[1..];
      ClearFromNext(m, gap, woven);
      p, k, rest := FirstAccident(m, tail, woven);
      SkipOne(m, gap, woven);
      p := p + 1;
      assert gap[..p] == [gap[0]] + tail[..p - 1] && gap[p..] == tail[p - 1..];
      Associative([gap[0]], tail[..p - 1], m[k] + rest);
    } else {
      assert gap[0..] == gap;
      var l :| l in m && l != [] && l <= gap + woven;
      k, rest := FirstReplaced(m, l, gap + woven);
      p := 0;
      assert gap[..0] + (m[k] + rest) == m[k] + rest;
    }
  }

  lemma ClearFromNext(m: map<string, string>, gap: string, woven: string)
    requires gap != [] && NoMatch(m, gap[0..] + woven) && !GapClear(m, gap, woven)
    ensures !GapClear(m, gap[1..], woven)
  {
    var p :| 0 <= p < |gap| && !NoMatch(m, gap[p..] + woven);
    assert gap[p..] == gap[1..][p - 1..];
  }

  lemma SkipOne(m: map<string, string>, gap: string, woven: string)
    requires gap != [] && NoMatch(m, gap[0..] + woven)
    ensures Replace(m, gap + woven) == [gap[0]] + Replace(m, gap[1..] + woven)
  {
    var s := gap + woven;
    assert gap[0..] + woven == s;
    forall k {:trigger s[..k]} | 0 < k <= |s| ensures s[..k] !in m {
      assert s[..k] <= s;
    }
    MatchLenIs(m, s, 0);
    assert s[1..] == gap[1..] + woven;
  }

  lemma SamePrefix(a: string, b: string, c: string, p: nat)
    requires p <= |a| && a[..p] + b == a + c
    ensures b == a[p..] + c
  {
    assert b == (a[..p] + b)[p..];
  }

  /** A gap with an accident is not restored. */
  lemma GapAccidentBreaks(m: map<string, string>, gap: string, woven: string, plain: string)
    requires !GapClear(m, gap, woven) && GapAccidentsVisible(m, gap, woven, plain)
    ensures Replace(m, gap + woven) != gap + plain
  {
    var p, k, rest := FirstAccident(m, gap, woven);
    if gap[..p] + (m[k] + rest) == gap + plain {
      SamePrefix(gap, m[k] + rest, plain, p);
      assert false;
    }
  }

  /** A key that a longer one beats is not restored. */
  lemma KeyAccidentBreaks(m: map<string, string>, key: string, woven: string, plain: string)
    requires !KeyLongest(m, key, woven) && key != []
    requires forall k :: k in m && |k| > |key| && k <= key + woven ==> !(m[k] <= plain)
    ensures Replace(m, key + woven) != plain
  {
    var k :| k in m && |k| > |key| && k <= key + woven;
    var l, rest := FirstReplaced(m, k, key + woven);
    assert m[l] <= m[l] + rest;
  }

  lemma WovenParts(ps: seq<Piece>, tail: string)
    ensures ps == [] ==> Woven(ps, tail) == tail && Plain(ps, tail) == tail
    ensures ps != [] ==>
      && Woven(ps, tail) == ps[0].gap + (ps[0].key + Woven(ps[1..], tail))
      && Plain(ps, tail) == ps[0].gap + (ps[0].original + Plain(ps[1..], tail))
  {
  }

  /**
   When every accident shows, the condition is exact: the text is restored if and only if
   no key matches in a gap and each inserted key is the longest match at its place.
   */
  lemma {:induction false} TextRestoredExact(m: map<string, string>, ps: seq<Piece>, tail: string)
    requires Maps(ps, m) && (forall i :: 0 <= i < |ps| ==> ps[i].key != [])
    requires AccidentsVisible(m, ps, tail)
    ensures Replace(m, Woven(ps, tail)) == Plain(ps, tail) <==> Restorable(m, ps, tail)
  {
    hide GapAccidentsVisible, GapClear, KeyLongest, Replace, Woven, Plain;
    WovenParts(ps, tail);
    if Restorable(m, ps, tail) {
      TextRestored(m, ps, tail);
    } else if ps == [] {
      GapAccidentBreaks(m, tail, "", "");
      assert tail + "" == tail;
    } else {
      var p, woven, plain := ps[0], Woven(ps[1..], tail), Plain(ps[1..], tail);
      if !GapClear(m, p.gap, p.key + woven) {
        GapAccidentBreaks(m, p.gap, p.key + woven, p.original + plain);
      } else {
        GapClearCopied(m, p.gap, p.key + woven);
        CancelLeft(p.gap, Replace(m, p.key + woven), p.original + plain);
        if !KeyLongest(m, p.key, woven) {
          KeyAccidentBreaks(m, p.key, woven, p.original + plain);
        } else {
          KeyLongestReplaced(m, p.key, woven);
          CancelLeft(p.original, Replace(m, woven), plain);
          TextRestoredExact(m, ps[1..], tail);
        }
      }
    }
  }

  lemma CancelLeft(a: string, x: string, y: string)
    ensures a + x == a + y <==> x == y
  {
    assert (a + x)[|a|..] == x && (a + y)[|a|..] == y;
  }

  lemma GapClearCopied(m: map<string, string>, gap: string, rest: string)
    requires GapClear(m, gap, rest)
    ensures Replace(m, gap + rest) == gap + Replace(m, rest)
  {
    GapCopied(m, gap, rest);
  }

  lemma KeyLongestReplaced(m: map<string, string>, key: string, rest: string)
    requires key in m && key != [] && KeyLongest(m, key, rest)
    ensures Replace(m, key + rest) == m[key] + Replace(m, rest)
  {
    KeyReplaced(m, key, rest);
  }
}
