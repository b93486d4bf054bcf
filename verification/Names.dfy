/**
 The morphological name scanner of internal/service/service.go: `tokenizeWords`,
 `classifyName`, `adjacentTokens`, `morphIsFalse` and `findFIOMorph`.
 Letter classes and word lists are parameters, so every result holds for any lexicon.
 */
module Names {
  import opened Common
  import opened Spans

  /** `unicode.IsLetter`, `unicode.ToLower` and the word lists of the service. */
  datatype Lexicon = Lexicon(
    isLetter: char -> bool,
    toLower: char -> char,
    stopTokens: set<string>,
    roleWords: set<string>,
    famousNames: set<string>,
    givenNames: set<string>,
    commonNouns: set<string>,
    weakStop: set<string>
  )

  const SURNAME_SUFFIXES: seq<string> := [
    "ова", "ева", "ёва", "ина", "ына", "ская", "цкая",
    "ский", "цкий", "янц", "идзе", "адзе", "швили", "енко",
    "ов", "ев", "ёв", "ин", "ын", "ян", "ко", "ук", "юк", "их", "ых"
  ]

  const PATRONYMIC_SUFFIXES: seq<string> := ["ович", "евич", "овна", "евна", "инична", "ична"]

  predicate HasSuffix(s: string, suffix: string) {
    |suffix| <= |s| && s[|s| - |suffix|..] == suffix
  }

  predicate HasAnySuffix(s: string, suffixes: seq<string>) {
    exists i :: 0 <= i < |suffixes| && HasSuffix(s, suffixes[i])
  }

  predicate IsPatronymic(low: string) {
    |low| >= 5 && HasAnySuffix(low, PATRONYMIC_SUFFIXES)
  }

  /** How a word counts towards a full name: not at all, as a name, or as a strong sign of one. */
  datatype NameClass = Other | NameLike | Strong

  /** `classifyName` */
  function ClassifyName(lex: Lexicon, low: string): NameClass {
    if low in lex.commonNouns then Other
    else if low in lex.givenNames then Strong
    else if IsPatronymic(low) then Strong
    else if |low| >= 5 && HasAnySuffix(low, SURNAME_SUFFIXES) then NameLike
    else Other
  }

  /** `disqualified` */
  predicate Disqualified(lex: Lexicon, low: string) {
    low in lex.commonNouns || low in lex.weakStop || low in lex.roleWords || low in lex.stopTokens
  }

  // ----- words -----

  datatype Word = Word(start: nat, end: nat, low: string)

  function Lower(lex: Lexicon, s: string): (r: string)
    ensures |r| == |s|
  {
    seq(|s|, i requires 0 <= i < |s| => lex.toLower(s[i]))
  }

  /** End of the run of letters that starts at `i`. */
  function WordEnd(lex: Lexicon, s: string, i: nat): (e: nat)
    requires i <= |s|
    ensures i <= e <= |s| && (e < |s| ==> !lex.isLetter(s[e]))
    ensures forall p :: i <= p < e ==> lex.isLetter(s[p])
    decreases |s| - i
  {
    if i < |s| && lex.isLetter(s[i]) then WordEnd(lex, s, i + 1) else i
  }

  /** The words of `s` from position `i` on. */
  function Words(lex: Lexicon, s: string, i: nat): seq<Word>
    requires i <= |s|
    decreases |s| - i
  {
    if i == |s| then []
    else if !lex.isLetter(s[i]) then Words(lex, s, i + 1)
    else
      var e := WordEnd(lex, s, i);
      [Word(i, e, Lower(lex, s[i..e]))] + Words(lex, s, e)
  }

  /** A maximal run of letters with its lower-case form. */
  ghost predicate IsWord(lex: Lexicon, s: string, w: Word) {
    && w.start < w.end <= |s|
    && (forall p :: w.start <= p < w.end ==> lex.isLetter(s[p]))
    && (w.start > 0 ==> !lex.isLetter(s[w.start - 1]))
    && (w.end < |s| ==> !lex.isLetter(s[w.end]))
    && |w.low| == w.end - w.start
    && (forall j :: 0 <= j < |w.low| ==> w.low[j] == lex.toLower(s[w.start + j]))
  }

  /** Words in order, at least one position between neighbours, all inside a text of length `n`. */
  ghost predicate Ordered(ws: seq<Word>, n: nat) {
    && (forall i :: 0 <= i < |ws| ==> ws[i].start < ws[i].end <= n)
    && (forall i, j :: 0 <= i < j < |ws| ==> ws[i].end < ws[j].start)
  }

  /** The run of letters that starts at `i` is a word. */
  lemma FirstWord(lex: Lexicon, s: string, i: nat)
    requires i < |s| && lex.isLetter(s[i]) && (i > 0 ==> !lex.isLetter(s[i - 1]))
    ensures i < WordEnd(lex, s, i)
    ensures IsWord(lex, s, Word(i, WordEnd(lex, s, i), Lower(lex, s[i..WordEnd(lex, s, i)])))
  {
  }

  /** `Words` finds maximal runs of letters, in order. */
  lemma {:induction false} WordsAreRuns(lex: Lexicon, s: string, i: nat)
    requires i <= |s| && (0 < i < |s| && lex.isLetter(s[i]) ==> !lex.isLetter(s[i - 1]))
    ensures Ordered(Words(lex, s, i), |s|)
    ensures forall k :: 0 <= k < |Words(lex, s, i)| ==>
      i <= Words(lex, s, i)[k].start && IsWord(lex, s, Words(lex, s, i)[k])
    decreases |s| - i
  {
    if i == |s| {
    } else if !lex.isLetter(s[i]) {
      WordsAreRuns(lex, s, i + 1);
    } else {
      var e := WordEnd(lex, s, i);
      FirstWord(lex, s, i);
      WordsAreRuns(lex, s, e);
      var rest := Words(lex, s, e);
      forall k | 0 <= k < |rest| ensures e < rest[k].start {
        assert lex.isLetter(s[rest[k].start]);
      }
    }
  }

  /** Every letter lies in one of the words. */
  lemma {:induction false} LettersInWords(lex: Lexicon, s: string, i: nat, p: nat)
    requires i <= p < |s| && lex.isLetter(s[p])
    ensures exists w :: w in Words(lex, s, i) && w.start <= p < w.end
    decreases |s| - i
  {
    if !lex.isLetter(s[i]) {
      LettersInWords(lex, s, i + 1, p);
    } else {
      var e := WordEnd(lex, s, i);
      var w := Word(i, e, Lower(lex, s[i..e]));
      assert w in Words(lex, s, i);
      if p >= e {
        LettersInWords(lex, s, e, p);
        var v :| v in Words(lex, s, e) && v.start <= p < v.end;
        assert v in Words(lex, s, i);
      }
    }
  }

  /** The words of the whole text. */
  function AllWords(lex: Lexicon, s: string): (ws: seq<Word>)
    ensures Ordered(ws, |s|)
  {
    WordsAreRuns(lex, s, 0);
    Words(lex, s, 0)
  }

  lemma {:induction false} WordEndFromInside(lex: Lexicon, s: string, i: nat, j: nat)
    requires i <= j <= |s| && forall p :: i <= p < j ==> lex.isLetter(s[p])
    ensures WordEnd(lex, s, i) == WordEnd(lex, s, j)
    decreases j - i
  {
    if i < j {
      WordEndFromInside(lex, s, i + 1, j);
    }
  }

  /** `tokenizeWords`: one scan with an "inside a word" flag. */
  method TokenizeWords(lex: Lexicon, s: string) returns (tokens: seq<Word>)
    ensures tokens == AllWords(lex, s)
  {
    tokens := [];
    var inWord, start := false, 0;
    for i := 0 to |s|
      invariant start <= i
      invariant inWord ==> start < i && forall p :: start <= p < i ==> lex.isLetter(s[p])
      invariant tokens + Words(lex, s, if inWord then start else i) == Words(lex, s, 0)
    {
      if lex.isLetter(s[i]) {
        if !inWord {
          inWord := true;
          start := i;
        }
      } else if inWord {
        WordEndFromInside(lex, s, start, i);
        tokens := tokens + [Word(start, i, Lower(lex, s[start..i]))];
        inWord := false;
      }
    }
    if inWord {
      WordEndFromInside(lex, s, start, |s|);
      tokens := tokens + [Word(start, |s|, Lower(lex, s[start..]))];
      assert s[start..] == s[start..|s|];
    }
  }

  // ----- windows -----

  /** Between neighbouring words of one name: one to three spaces, tabs or dashes. */
  predicate ShortGap(gap: string) {
    1 <= |gap| <= 3 && forall i :: 0 <= i < |gap| ==> gap[i] == ' ' || gap[i] == '\t' || gap[i] == '-'
  }

  predicate Adjacent(input: string, ws: seq<Word>, from: nat, to: nat)
    requires Ordered(ws, |input|) && to < |ws|
  {
    forall k :: from <= k < to ==> ShortGap(input[ws[k].end..ws[k + 1].start])
  }

  /**
   `adjacentTokens`. The source measures the gap in bytes; a gap of three code points
   that is longer in bytes holds a code point the second test refuses.
   */
  method AdjacentTokens(input: string, ws: seq<Word>, from: nat, to: nat) returns (ok: bool)
    requires Ordered(ws, |input|) && from <= to < |ws|
    ensures ok == Adjacent(input, ws, from, to)
  {
    for k := from to to
      invariant forall j :: from <= j < k ==> ShortGap(input[ws[j].end..ws[j + 1].start])
    {
      var gap := input[ws[k].end..ws[k + 1].start];
      if |gap| == 0 || |gap| > 3 {
        return false;
      }
      for i := 0 to |gap|
        invariant forall j :: 0 <= j < i ==> gap[j] == ' ' || gap[j] == '\t' || gap[j] == '-'
      {
        if gap[i] != ' ' && gap[i] != '\t' && gap[i] != '-' {
          return false;
        }
      }
    }
    ok := true;
  }

  /** `morphIsFalse`: a stop word anywhere, or a famous name in either order. */
  predicate MorphIsFalse(lex: Lexicon, ws: seq<Word>) {
    || (exists i :: 0 <= i < |ws| && ws[i].low in lex.stopTokens)
    || (|ws| >= 2 &&
        (|| ws[0].low + " " + ws[1].low in lex.famousNames
         || ws[1].low + " " + ws[0].low in lex.famousNames
         || (|ws| == 3 && ws[0].low + " " + ws[1].low + " " + ws[2].low in lex.famousNames)))
  }

  /** The words look like a name: all name-like with a strong one, or an unknown middle word between two. */
  predicate LooksLikeName(lex: Lexicon, ws: seq<Word>)
    requires 1 <= |ws| <= 3
  {
    if |ws| == 1 then IsPatronymic(ws[0].low)
    else
      && (exists k :: 0 <= k < |ws| && ClassifyName(lex, ws[k].low).Strong?)
      && (|| (forall k :: 0 <= k < |ws| ==> !ClassifyName(lex, ws[k].low).Other?)
          || (&& |ws| == 3
              && !ClassifyName(lex, ws[0].low).Other?
              && !ClassifyName(lex, ws[2].low).Other?
              && !Disqualified(lex, ws[1].low)))
  }

  /** The window of `w` words at `i` is a name. */
  predicate WindowFits(lex: Lexicon, input: string, ws: seq<Word>, i: nat, w: nat)
    requires Ordered(ws, |input|) && 1 <= w <= 3
  {
    && i + w <= |ws|
    && Adjacent(input, ws, i, i + w - 1)
    && LooksLikeName(lex, ws[i..i + w])
    && !MorphIsFalse(lex, ws[i..i + w])
  }

  /** Size of the widest window that fits at `i`, 0 if none does. */
  function WidestWindow(lex: Lexicon, input: string, ws: seq<Word>, i: nat): (w: nat)
    requires Ordered(ws, |input|)
    ensures w <= 3 && (w > 0 ==> WindowFits(lex, input, ws, i, w) && i + w <= |ws|)
    ensures forall v :: w < v <= 3 ==> !WindowFits(lex, input, ws, i, v)
  {
    if WindowFits(lex, input, ws, i, 3) then 3
    else if WindowFits(lex, input, ws, i, 2) then 2
    else if WindowFits(lex, input, ws, i, 1) then 1
    else 0
  }

  /** The span of the `w` words at `i`. */
  function NameSpan(ws: seq<Word>, i: nat, w: nat): Span
    requires 1 <= w && i + w <= |ws|
  {
    Span(ws[i].start, ws[i + w - 1].end, "FIO")
  }

  /** Greedy scan from word `i` on. */
  function Scan(lex: Lexicon, input: string, ws: seq<Word>, i: nat): seq<Span>
    requires Ordered(ws, |input|) && i <= |ws|
    decreases |ws| - i
  {
    if i == |ws| then []
    else
      var w := WidestWindow(lex, input, ws, i);
      if w > 0 then [NameSpan(ws, i, w)] + Scan(lex, input, ws, i + w)
      else Scan(lex, input, ws, i + 1)
  }

  /** The counters of one window: name-like words and strong ones. */
  method CountNames(lex: Lexicon, win: seq<Word>) returns (nameLike: nat, strong: nat)
    ensures nameLike == |win| <==> forall j :: 0 <= j < |win| ==> !ClassifyName(lex, win[j].low).Other?
    ensures strong >= 1 <==> exists j :: 0 <= j < |win| && ClassifyName(lex, win[j].low).Strong?
  {
    nameLike, strong := 0, 0;
    for k := 0 to |win|
      invariant nameLike <= k
      invariant nameLike == k <==> forall j :: 0 <= j < k ==> !ClassifyName(lex, win[j].low).Other?
      invariant strong >= 1 <==> exists j :: 0 <= j < k && ClassifyName(lex, win[j].low).Strong?
    {
      var c := ClassifyName(lex, win[k].low);
      if !c.Other? { nameLike := nameLike + 1; }
      if c.Strong? { strong := strong + 1; }
    }
  }

  /** The decision taken from the counters of one window. */
  method NameTest(lex: Lexicon, win: seq<Word>) returns (ok: bool)
    requires 1 <= |win| <= 3
    ensures ok == LooksLikeName(lex, win)
  {
    var nameLike, strong := CountNames(lex, win);
    if |win| >= 2 {
      ok := nameLike == |win| && strong >= 1;
      if !ok && |win| == 3 && strong >= 1 {
        if !ClassifyName(lex, win[0].low).Other? && !ClassifyName(lex, win[2].low).Other?
           && !Disqualified(lex, win[1].low)
        {
          ok := true;
        }
      }
    } else {
      ok := IsPatronymic(win[0].low);
    }
  }

  /** One window test. */
  method TestWindow(lex: Lexicon, input: string, ws: seq<Word>, i: nat, w: nat) returns (found: bool)
    requires Ordered(ws, |input|) && i < |ws| && 1 <= w <= 3
    ensures found == WindowFits(lex, input, ws, i, w)
  {
    if i + w > |ws| {
      return false;
    }
    var adjacent := AdjacentTokens(input, ws, i, i + w - 1);
    if !adjacent {
      return false;
    }
    var ok := NameTest(lex, ws[i..i + w]);
    found := ok && !MorphIsFalse(lex, ws[i..i + w]);
  }

  lemma WidestWindowIs(lex: Lexicon, input: string, ws: seq<Word>, i: nat, w: nat)
    requires Ordered(ws, |input|) && w <= 3
    requires w > 0 ==> WindowFits(lex, input, ws, i, w)
    requires forall v :: w < v <= 3 ==> !WindowFits(lex, input, ws, i, v)
    ensures WidestWindow(lex, input, ws, i) == w
  {
  }

  /** The inner loop of `findFIOMorph`: windows of three, two and one word. */
  method FindWindow(lex: Lexicon, input: string, ws: seq<Word>, i: nat) returns (w: nat)
    requires Ordered(ws, |input|) && i < |ws|
    ensures w == WidestWindow(lex, input, ws, i)
  {
    w := 3;
    while w >= 1
      invariant w <= 3
      invariant forall v :: w < v <= 3 ==> !WindowFits(lex, input, ws, i, v)
    {
      var found := TestWindow(lex, input, ws, i, w);
      if found {
        break;
      }
      w := w - 1;
    }
    WidestWindowIs(lex, input, ws, i, w);
  }

  /** `findFIOMorph`: at each word the widest fitting window, then on behind it. */
  method FindFIOMorph(lex: Lexicon, input: string) returns (result: seq<Span>)
    ensures result == Scan(lex, input, AllWords(lex, input), 0)
  {
    hide WidestWindow, Words, WindowFits;
    var tokens := TokenizeWords(lex, input);
    result := [];
    var i := 0;
    while i < |tokens|
      invariant 0 <= i <= |tokens|
      invariant result + Scan(lex, input, tokens, i) == Scan(lex, input, tokens, 0)
    {
      var w := FindWindow(lex, input, tokens, i);
      if w > 0 {
        Associative(result, [NameSpan(tokens, i, w)], Scan(lex, input, tokens, i + w));
        result := result + [NameSpan(tokens, i, w)];
        i := i + w;
      } else {
        i := i + 1;
      }
    }
  }

  // ----- what the scan guarantees -----

  /** `s` spans one to three adjacent words, from word `i` on, that make a name. */
  ghost predicate SpansName(lex: Lexicon, input: string, ws: seq<Word>, i: nat, s: Span)
    requires Ordered(ws, |input|)
  {
    exists a: nat, w: nat :: i <= a && 1 <= w <= 3 && WindowFits(lex, input, ws, a, w) && s == NameSpan(ws, a, w)
  }

  lemma NameSpanBounds(ws: seq<Word>, n: nat, i: nat, a: nat, w: nat)
    requires Ordered(ws, n) && i <= a && 1 <= w && a + w <= |ws|
    ensures NameSpan(ws, a, w).start < NameSpan(ws, a, w).end <= n
    ensures i > 0 ==> ws[i - 1].end < NameSpan(ws, a, w).start
  {
    if w > 1 {
      assert ws[a].end < ws[a + w - 1].start;
    }
  }

  lemma SpansNameBounds(lex: Lexicon, input: string, ws: seq<Word>, i: nat, s: Span)
    requires Ordered(ws, |input|) && SpansName(lex, input, ws, i, s)
    ensures s.start < s.end <= |input| && i <= |ws|
    ensures i > 0 ==> ws[i - 1].end < s.start
  {
    var a: nat, w: nat :| i <= a && 1 <= w <= 3 && WindowFits(lex, input, ws, a, w) && s == NameSpan(ws, a, w);
    NameSpanBounds(ws, |input|, i, a, w);
  }

  /** Every reported span lies on one to three adjacent words that make a name. */
  lemma {:induction false} ScanAligned(lex: Lexicon, input: string, ws: seq<Word>, i: nat)
    requires Ordered(ws, |input|) && i <= |ws|
    ensures forall s :: s in Scan(lex, input, ws, i) ==> SpansName(lex, input, ws, i, s)
    decreases |ws| - i
  {
    if i < |ws| {
      var w := WidestWindow(lex, input, ws, i);
      var next := if w > 0 then i + w else i + 1;
      ScanAligned(lex, input, ws, next);
      forall s | s in Scan(lex, input, ws, i) ensures SpansName(lex, input, ws, i, s) {
        if s in Scan(lex, input, ws, next) {
          var a: nat, v: nat :| next <= a && 1 <= v <= 3 && WindowFits(lex, input, ws, a, v) && s == NameSpan(ws, a, v);
          assert i <= a;
        }
      }
    }
  }

  lemma ScanWithin(lex: Lexicon, input: string, ws: seq<Word>, i: nat)
    requires Ordered(ws, |input|) && i <= |ws|
    ensures Within(Scan(lex, input, ws, i), |input|)
    ensures i > 0 ==> forall s :: s in Scan(lex, input, ws, i) ==> ws[i - 1].end < s.start
  {
    ScanAligned(lex, input, ws, i);
    forall s | s in Scan(lex, input, ws, i)
      ensures s.start < s.end <= |input| && (i > 0 ==> ws[i - 1].end < s.start)
    {
      SpansNameBounds(lex, input, ws, i, s);
    }
  }

  /** The reported spans are in order, with at least one position between neighbours. */
  lemma {:induction false} ScanSeparated(lex: Lexicon, input: string, ws: seq<Word>, i: nat)
    requires Ordered(ws, |input|) && i <= |ws|
    ensures Separated(Scan(lex, input, ws, i))
    decreases |ws| - i
  {
    hide WidestWindow, Separated, LooksLikeName, MorphIsFalse, Adjacent;
    assert Separated([]) by {
      NothingSeparated();
    }
    if i < |ws| {
      var w := WidestWindow(lex, input, ws, i);
      if w > 0 {
        var rest := Scan(lex, input, ws, i + w);
        ScanSeparated(lex, input, ws, i + w);
        ScanWithin(lex, input, ws, i + w);
        SeparatedCons(NameSpan(ws, i, w), rest);
      } else {
        ScanSeparated(lex, input, ws, i + 1);
      }
    }
  }

  /** Word `k` lies inside span `s`. */
  predicate Inside(w: Word, s: Span) {
    s.start <= w.start && w.end <= s.end
  }

  lemma InsideWindow(ws: seq<Word>, n: nat, i: nat, w: nat, k: nat)
    requires Ordered(ws, n) && 1 <= w && i <= k < i + w <= |ws|
    ensures Inside(ws[k], NameSpan(ws, i, w))
  {
    assert i < k ==> ws[i].end < ws[k].start;
    assert k < i + w - 1 ==> ws[k].end < ws[i + w - 1].start;
  }

  /** Nothing is missed: a word at which some window fits lies inside a reported span. */
  lemma {:induction false} ScanComplete(lex: Lexicon, input: string, ws: seq<Word>, i: nat, k: nat, v: nat)
    requires Ordered(ws, |input|) && i <= k < |ws|
    requires 1 <= v <= 3 && WindowFits(lex, input, ws, k, v)
    ensures exists s :: s in Scan(lex, input, ws, i) && Inside(ws[k], s)
    decreases |ws| - i
  {
    hide WidestWindow, LooksLikeName, MorphIsFalse, Adjacent;
    var w := WidestWindow(lex, input, ws, i);
    if w == 0 {
      ScanComplete(lex, input, ws, i + 1, k, v);
    } else if k < i + w {
      InsideWindow(ws, |input|, i, w, k);
      assert NameSpan(ws, i, w) in Scan(lex, input, ws, i);
    } else {
      ScanComplete(lex, input, ws, i + w, k, v);
      var s :| s in Scan(lex, input, ws, i + w) && Inside(ws[k], s);
      assert s in Scan(lex, input, ws, i);
    }
  }

  /** Every patronymic that is not a stop word lies inside a reported span. */
  lemma PatronymicCovered(lex: Lexicon, input: string, k: nat)
    requires k < |AllWords(lex, input)|
    requires var low := AllWords(lex, input)[k].low; IsPatronymic(low) && low !in lex.stopTokens
    ensures exists s :: s in Scan(lex, input, AllWords(lex, input), 0) && Inside(AllWords(lex, input)[k], s)
  {
    var ws := AllWords(lex, input);
    assert ws[k..k + 1] == [ws[k]];
    assert WindowFits(lex, input, ws, k, 1);
    ScanComplete(lex, input, ws, 0, k, 1);
  }
}
