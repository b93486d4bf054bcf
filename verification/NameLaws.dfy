/**
 What the name scanner finds and what it does not, in terms of the word lists and endings
 themselves: which neighbouring words are always covered, and what every reported span holds.
 */
module NameLaws {
  import opened Common
  import opened Spans
  import opened Names
  import opened Collect
  import opened Coverage

  // ----- endings -----

  ghost predicate Ends(low: string, ending: string) {
    exists stem :: low == stem + ending
  }

  lemma SuffixIsEnding(low: string, ending: string)
    ensures HasSuffix(low, ending) <==> Ends(low, ending)
  {
    if HasSuffix(low, ending) {
      assert low == low[..|low| - |ending|] + ending;
    }
  }

  ghost predicate EndsInOneOf(low: string, endings: seq<string>) {
    exists i :: 0 <= i < |endings| && Ends(low, endings[i])
  }

  lemma AnySuffixIsEnding(low: string, suffixes: seq<string>)
    ensures HasAnySuffix(low, suffixes) <==> EndsInOneOf(low, suffixes)
  {
    hide HasSuffix, Ends;
    forall i | 0 <= i < |suffixes| ensures HasSuffix(low, suffixes[i]) <==> Ends(low, suffixes[i]) {
      SuffixIsEnding(low, suffixes[i]);
    }
  }

  /** An ending that ends in another one of the list adds nothing to it. */
  lemma RedundantEnding(low: string, endings: seq<string>, k: nat, start: string, i: nat)
    requires k < |endings| && i < |endings| && i != k && endings[k] == start + endings[i]
    ensures EndsInOneOf(low, endings) <==> EndsInOneOf(low, endings[..k] + endings[k + 1..])
  {
    hide Ends;
    var rest := endings[..k] + endings[k + 1..];
    if j :| 0 <= j < |endings| && Ends(low, endings[j]) {
      LongerEnding(low, endings[k], start, endings[i]);
      var m := if j == k then i else j;
      assert Ends(low, rest[if m < k then m else m - 1]);
    }
    if j :| 0 <= j < |rest| && Ends(low, rest[j]) {
      assert Ends(low, endings[if j < k then j else j + 1]);
    }
  }

  lemma LongerEnding(low: string, ending: string, start: string, rest: string)
    requires ending == start + rest
    ensures Ends(low, ending) ==> Ends(low, rest)
  {
    if stem :| low == stem + ending {
      assert low == (stem + start) + rest;
    }
  }

  const PATRONYMIC_ENDINGS: seq<string> := ["ович", "евич", "овна", "евна", "ична"]

  const SURNAME_ENDINGS: seq<string> := [
    "ова", "ева", "ёва", "ина", "ына", "ская", "цкая", "ский", "цкий", "янц", "идзе", "адзе", "швили",
    "ов", "ев", "ёв", "ин", "ын", "ян", "ко", "ук", "юк", "их", "ых"]

  /** Of the six patronymic endings five decide: "инична" ends in "ична". */
  lemma PatronymicEndings(low: string)
    ensures IsPatronymic(low) <==> |low| >= 5 && EndsInOneOf(low, PATRONYMIC_ENDINGS)
  {
    hide EndsInOneOf, HasAnySuffix;
    AnySuffixIsEnding(low, PATRONYMIC_SUFFIXES);
    RedundantEnding(low, PATRONYMIC_SUFFIXES, 4, "ин", 5);
    assert PATRONYMIC_SUFFIXES[..4] + PATRONYMIC_SUFFIXES[5..] == PATRONYMIC_ENDINGS;
  }

  /** Of the 25 surname endings 24 decide: "енко" ends in "ко". */
  lemma SurnameEndings(low: string)
    ensures HasAnySuffix(low, SURNAME_SUFFIXES) <==> EndsInOneOf(low, SURNAME_ENDINGS)
  {
    hide EndsInOneOf, HasAnySuffix;
    AnySuffixIsEnding(low, SURNAME_SUFFIXES);
    RedundantEnding(low, SURNAME_SUFFIXES, 13, "ен", 20);
    assert SURNAME_SUFFIXES[..13] + SURNAME_SUFFIXES[14..] == SURNAME_ENDINGS;
  }

  // ----- names and strong names -----

  /** A given name or a patronymic. */
  ghost predicate Strong(lex: Lexicon, low: string) {
    low in lex.givenNames || (|low| >= 5 && EndsInOneOf(low, PATRONYMIC_ENDINGS))
  }

  /** A given name that is no common noun, or a patronymic that is none. */
  ghost predicate StrongWord(lex: Lexicon, low: string) {
    low !in lex.commonNouns && Strong(lex, low)
  }

  /** A strong word, or one of five letters or more with a surname ending; no common noun. */
  ghost predicate NameWord(lex: Lexicon, low: string) {
    && low !in lex.commonNouns
    && (StrongWord(lex, low) || (|low| >= 5 && EndsInOneOf(low, SURNAME_ENDINGS)))
  }

  lemma ClassIs(lex: Lexicon, low: string)
    ensures ClassifyName(lex, low).Strong? <==> StrongWord(lex, low)
    ensures !ClassifyName(lex, low).Other? <==> NameWord(lex, low)
  {
    hide HasAnySuffix, EndsInOneOf;
    PatronymicEndings(low);
    SurnameEndings(low);
  }

  // ----- windows -----

  /** Between words `k` and `k + 1`: one to three spaces, tabs or dashes and nothing else. */
  predicate Neighbours(input: string, ws: seq<Word>, k: nat)
    requires Ordered(ws, |input|) && k + 1 < |ws|
  {
    && 1 <= ws[k + 1].start - ws[k].end <= 3
    && forall p :: ws[k].end <= p < ws[k + 1].start ==> input[p] in {' ', '\t', '-'}
  }

  lemma GapIsShort(input: string, ws: seq<Word>, k: nat)
    requires Ordered(ws, |input|) && k + 1 < |ws|
    ensures ShortGap(input[ws[k].end..ws[k + 1].start]) <==> Neighbours(input, ws, k)
  {
    var gap := input[ws[k].end..ws[k + 1].start];
    if ShortGap(gap) {
      forall p | ws[k].end <= p < ws[k + 1].start ensures input[p] in {' ', '\t', '-'} {
        assert gap[p - ws[k].end] == input[p];
      }
    }
  }

  /** Both words in a row, in either order, are no famous name. */
  predicate NotFamous(lex: Lexicon, a: string, b: string) {
    a + " " + b !in lex.famousNames && b + " " + a !in lex.famousNames
  }

  /** Words `k` and `k + 1` make a name of two words. */
  ghost predicate PairIsName(lex: Lexicon, input: string, ws: seq<Word>, k: nat)
    requires Ordered(ws, |input|) && k + 1 < |ws|
  {
    var a, b := ws[k].low, ws[k + 1].low;
    && Neighbours(input, ws, k)
    && NameWord(lex, a) && NameWord(lex, b) && (StrongWord(lex, a) || StrongWord(lex, b))
    && a !in lex.stopTokens && b !in lex.stopTokens && NotFamous(lex, a, b)
  }

  /** A word that may stand unknown in the middle of a name. */
  predicate Unlisted(lex: Lexicon, low: string) {
    low !in lex.commonNouns && low !in lex.weakStop && low !in lex.roleWords && low !in lex.stopTokens
  }

  /** Words `k` to `k + 2` make a name of three words; the middle one may be unknown. */
  ghost predicate TripleIsName(lex: Lexicon, input: string, ws: seq<Word>, k: nat)
    requires Ordered(ws, |input|) && k + 2 < |ws|
  {
    var a, b, c := ws[k].low, ws[k + 1].low, ws[k + 2].low;
    && Neighbours(input, ws, k) && Neighbours(input, ws, k + 1)
    && NameWord(lex, a) && NameWord(lex, c) && (NameWord(lex, b) || Unlisted(lex, b))
    && (StrongWord(lex, a) || StrongWord(lex, b) || StrongWord(lex, c))
    && a !in lex.stopTokens && b !in lex.stopTokens && c !in lex.stopTokens
    && NotFamous(lex, a, b) && a + " " + b + " " + c !in lex.famousNames
  }

  /** Word `k` alone makes a name. */
  ghost predicate SingleIsName(lex: Lexicon, ws: seq<Word>, k: nat)
    requires k < |ws|
  {
    |ws[k].low| >= 5 && EndsInOneOf(ws[k].low, PATRONYMIC_ENDINGS) && ws[k].low !in lex.stopTokens
  }

  /** The `w` words at `k` make a name. */
  ghost predicate IsNameAt(lex: Lexicon, input: string, ws: seq<Word>, k: nat, w: nat)
    requires Ordered(ws, |input|)
  {
    || (w == 1 && k < |ws| && SingleIsName(lex, ws, k))
    || (w == 2 && k + 1 < |ws| && PairIsName(lex, input, ws, k))
    || (w == 3 && k + 2 < |ws| && TripleIsName(lex, input, ws, k))
  }

  lemma SingleFits(lex: Lexicon, input: string, ws: seq<Word>, k: nat)
    requires Ordered(ws, |input|) && k < |ws|
    ensures WindowFits(lex, input, ws, k, 1) <==> SingleIsName(lex, ws, k)
  {
    hide IsPatronymic, EndsInOneOf;
    PatronymicEndings(ws[k].low);
    assert ws[k..k + 1] == [ws[k]];
  }

  lemma PairFits(lex: Lexicon, input: string, ws: seq<Word>, k: nat)
    requires Ordered(ws, |input|) && k + 1 < |ws|
    ensures WindowFits(lex, input, ws, k, 2) <==> PairIsName(lex, input, ws, k)
  {
    hide ShortGap, Neighbours, ClassifyName, NameWord, StrongWord;
    var win := ws[k..k + 2];
    assert win[0] == ws[k] && win[1] == ws[k + 1];
    GapIsShort(input, ws, k);
    ClassIs(lex, win[0].low);
    ClassIs(lex, win[1].low);
    assert MorphIsFalse(lex, win) <==>
      win[0].low in lex.stopTokens || win[1].low in lex.stopTokens || !NotFamous(lex, win[0].low, win[1].low);
  }

  lemma TripleFits(lex: Lexicon, input: string, ws: seq<Word>, k: nat)
    requires Ordered(ws, |input|) && k + 2 < |ws|
    ensures WindowFits(lex, input, ws, k, 3) <==> TripleIsName(lex, input, ws, k)
  {
    hide ShortGap, Neighbours, ClassifyName, NameWord, StrongWord;
    var win := ws[k..k + 3];
    assert win[0] == ws[k] && win[1] == ws[k + 1] && win[2] == ws[k + 2];
    GapIsShort(input, ws, k);
    GapIsShort(input, ws, k + 1);
    ClassIs(lex, win[0].low);
    ClassIs(lex, win[1].low);
    ClassIs(lex, win[2].low);
  }

  /** A window fits if and only if its words make a name by the lists and endings. */
  lemma WindowExact(lex: Lexicon, input: string, ws: seq<Word>, k: nat, w: nat)
    requires Ordered(ws, |input|) && 1 <= w <= 3
    ensures WindowFits(lex, input, ws, k, w) <==> IsNameAt(lex, input, ws, k, w)
  {
    if k + w <= |ws| {
      hide WindowFits, SingleIsName, PairIsName, TripleIsName;
      if w == 1 {
        SingleFits(lex, input, ws, k);
      } else if w == 2 {
        PairFits(lex, input, ws, k);
      } else {
        TripleFits(lex, input, ws, k);
      }
    }
  }

  // ----- what is found -----

  /** Nothing is missed: a word at which a name of one, two or three words starts lies inside a reported span. */
  lemma NameCovered(lex: Lexicon, input: string, k: nat, w: nat)
    requires 1 <= w <= 3 && IsNameAt(lex, input, AllWords(lex, input), k, w)
    ensures k < |AllWords(lex, input)|
    ensures exists s :: s in Scan(lex, input, AllWords(lex, input), 0) && Inside(AllWords(lex, input)[k], s)
  {
    hide WindowFits, SingleIsName, PairIsName, TripleIsName;
    var ws := AllWords(lex, input);
    WindowExact(lex, input, ws, k, w);
    ScanComplete(lex, input, ws, 0, k, w);
  }

  /** And so it is masked at each of its positions whenever names are allowed. */
  lemma NameMasked(
    e: Engine, input: string, allowed: Option<set<string>>, spans: seq<Span>, k: nat, w: nat, p: nat)
    requires Sound(e, input) && Allow(allowed, "FIO") && NormalFormOf(spans, Kept(e, input, allowed))
    requires 1 <= w <= 3 && IsNameAt(e.lexicon, input, AllWords(e.lexicon, input), k, w)
    requires k < |AllWords(e.lexicon, input)|
    requires AllWords(e.lexicon, input)[k].start <= p < AllWords(e.lexicon, input)[k].end
    ensures Covers(spans, p)
  {
    hide IsNameAt, Kept;
    var ws := AllWords(e.lexicon, input);
    NameCovered(e.lexicon, input, k, w);
    var s :| s in Scan(e.lexicon, input, ws, 0) && Inside(ws[k], s);
    NameKept(e, input, allowed, s);
    assert Covers(Kept(e, input, allowed), p);
  }

  // ----- what is reported -----

  /** Every reported span is the widest window at its word. */
  lemma {:induction false} ScanWidest(lex: Lexicon, input: string, ws: seq<Word>, i: nat, s: Span) returns (k: nat)
    requires Ordered(ws, |input|) && i <= |ws| && s in Scan(lex, input, ws, i)
    ensures i <= k < |ws| && WidestWindow(lex, input, ws, k) > 0
    ensures s == NameSpan(ws, k, WidestWindow(lex, input, ws, k))
    decreases |ws| - i
  {
    hide WidestWindow;
    var w := WidestWindow(lex, input, ws, i);
    if w > 0 && s == NameSpan(ws, i, w) {
      k := i;
    } else {
      k := ScanWidest(lex, input, ws, if w > 0 then i + w else i + 1, s);
    }
  }

  /** Every reported span lies exactly on the words of a name, and on as many as make a name there. */
  lemma ReportedIsName(lex: Lexicon, input: string, s: Span) returns (k: nat, w: nat)
    requires s in Scan(lex, input, AllWords(lex, input), 0)
    ensures 1 <= w <= 3 && k + w <= |AllWords(lex, input)|
    ensures IsNameAt(lex, input, AllWords(lex, input), k, w)
    ensures forall v :: w < v <= 3 ==> !IsNameAt(lex, input, AllWords(lex, input), k, v)
    ensures s == NameSpan(AllWords(lex, input), k, w)
  {
    hide IsNameAt, WindowFits;
    var ws := AllWords(lex, input);
    k := ScanWidest(lex, input, ws, 0, s);
    w := WidestWindow(lex, input, ws, k);
    forall v: nat | 1 <= v <= 3 ensures WindowFits(lex, input, ws, k, v) <==> IsNameAt(lex, input, ws, k, v) {
      WindowExact(lex, input, ws, k, v);
    }
  }

  /** A strong word is among the words of a name, and no stop word is. */
  lemma NameHolds(lex: Lexicon, input: string, ws: seq<Word>, k: nat, w: nat)
    requires Ordered(ws, |input|) && IsNameAt(lex, input, ws, k, w)
    ensures k + w <= |ws|
    ensures exists j :: k <= j < k + w && Strong(lex, ws[j].low)
    ensures forall j :: k <= j < k + w ==> ws[j].low !in lex.stopTokens
  {
    hide EndsInOneOf, Neighbours;
    if w == 1 {
      assert Strong(lex, ws[k].low);
    } else if w == 2 {
      assert Strong(lex, ws[k].low) || Strong(lex, ws[k + 1].low);
    } else {
      assert Strong(lex, ws[k].low) || Strong(lex, ws[k + 1].low) || Strong(lex, ws[k + 2].low);
    }
  }

  /** Every reported span holds a given name or a patronymic, and no stop word. */
  lemma ReportedSound(lex: Lexicon, input: string, s: Span)
    requires s in Scan(lex, input, AllWords(lex, input), 0)
    ensures var ws := AllWords(lex, input);
      && (exists j :: 0 <= j < |ws| && Inside(ws[j], s) && Strong(lex, ws[j].low))
      && (forall j :: 0 <= j < |ws| && Inside(ws[j], s) ==> ws[j].low !in lex.stopTokens)
  {
    hide Strong, IsNameAt;
    var ws := AllWords(lex, input);
    var k, w := ReportedIsName(lex, input, s);
    NameHolds(lex, input, ws, k, w);
    var j :| k <= j < k + w && Strong(lex, ws[j].low);
    InsideWindow(ws, |input|, k, w, j);
    forall i | 0 <= i < |ws| && Inside(ws[i], s) ensures k <= i < k + w {
      OnlyInside(ws, |input|, k, w, i);
    }
  }

  lemma OnlyInside(ws: seq<Word>, n: nat, k: nat, w: nat, j: nat)
    requires Ordered(ws, n) && 1 <= w && k + w <= |ws| && j < |ws| && Inside(ws[j], NameSpan(ws, k, w))
    ensures k <= j < k + w
  {
    assert k <= j;
    assert j < k + w;
  }
}
