/**
 Luhn arithmetic of internal/service/service.go: `luhnOnDigits`, `luhnCheckDigit`,
 `isValidLuhn`, `longestLuhnCard`. The formula is that of Annex B of ISO/IEC 7812-1.
 */
module Luhn {
  import opened Common
  import opened Decimal

  /** A string of decimal digits, as numbers. */
  predicate Digits(ds: seq<int>) {
    forall i :: 0 <= i < |ds| ==> 0 <= ds[i] <= 9
  }

  /** What a doubled digit contributes. */
  function Doubled(d: int): int {
    if 2 * d > 9 then 2 * d - 9 else 2 * d
  }

  /** `n` is even. */
  predicate Even(n: nat) {
    n % 2 == 0
  }

  /** Every second digit counted from the right is doubled. */
  function LuhnSum(ds: seq<int>): int {
    if ds == [] then 0
    else (if Even(|ds|) then Doubled(ds[0]) else ds[0]) + LuhnSum(ds[1..])
  }

  predicate LuhnValid(ds: seq<int>) {
    LuhnSum(ds) % 10 == 0
  }

  lemma Parity(n: nat)
    ensures Even(n + 1) <==> !Even(n)
  {
  }

  lemma LuhnSumCons(d: int, ds: seq<int>)
    ensures LuhnSum([d] + ds) == (if Even(|ds|) then d else Doubled(d)) + LuhnSum(ds)
  {
    hide Doubled, Even;
    Parity(|ds|);
    assert ([d] + ds)[1..] == ds;
  }

  /** `luhnOnDigits`: scans from the right with an alternating flag. */
  method LuhnOnDigits(ds: seq<int>) returns (ok: bool)
    ensures ok == LuhnValid(ds)
  {
    var sum, alt := 0, false;
    var i := |ds| - 1;
    while i >= 0
      invariant -1 <= i < |ds|
      invariant sum == LuhnSum(ds[i + 1..])
      invariant alt == !Even(|ds[i + 1..]|)
    {
      hide Even;
      Parity(|ds[i + 1..]|);
      var n := ds[i];
      if alt {
        n := n * 2;
        if n > 9 { n := n - 9; }
      }
      assert ds[i..][1..] == ds[i + 1..];
      sum := sum + n;
      alt := !alt;
      i := i - 1;
    }
    assert ds[0..] == ds;
    ok := sum % 10 == 0;
  }

  // ----- the check digit -----

  /** The contribution of each digit once one more digit is appended. */
  function ShiftedSum(ds: seq<int>): int {
    if ds == [] then 0
    else (if Even(|ds|) then ds[0] else Doubled(ds[0])) + ShiftedSum(ds[1..])
  }

  function CheckDigitOf(ds: seq<int>): (c: int)
    ensures 0 <= c <= 9
  {
    (10 - ShiftedSum(ds) % 10) % 10
  }

  /** `luhnCheckDigit` */
  method LuhnCheckDigit(num: string) returns (c: int)
    requires AllDigits(num)
    ensures c == CheckDigitOf(Stripped(num))
  {
    var sum, alt := 0, true;
    var i := |num| - 1;
    StrippedAllDigits(num);
    while i >= 0
      invariant -1 <= i < |num|
      invariant sum == ShiftedSum(Stripped(num)[i + 1..])
      invariant alt == Even(|Stripped(num)[i + 1..]|)
    {
      hide Even, Stripped;
      Parity(|Stripped(num)[i + 1..]|);
      var d := DigitValue(num[i]) as int;
      if alt {
        d := d * 2;
        if d > 9 { d := d - 9; }
      }
      assert Stripped(num)[i..][1..] == Stripped(num)[i + 1..];
      sum := sum + d;
      alt := !alt;
      i := i - 1;
    }
    assert Stripped(num)[0..] == Stripped(num);
    c := (10 - sum % 10) % 10;
  }

  lemma {:induction false} AppendDigit(ds: seq<int>, c: int)
    ensures LuhnSum(ds + [c]) == ShiftedSum(ds) + c
  {
    if ds == [] {
      assert LuhnSum([c]) == c + LuhnSum([c][1..]);
    } else {
      hide Even, Doubled;
      AppendDigit(ds[1..], c);
      assert (ds + [c])[1..] == ds[1..] + [c];
      Parity(|ds|);
    }
  }

  /** The check digit is the only digit that completes `ds` to a valid number. */
  lemma CheckDigitUnique(ds: seq<int>, c: int)
    requires 0 <= c <= 9
    ensures LuhnValid(ds + [c]) <==> c == CheckDigitOf(ds)
  {
    AppendDigit(ds, c);
  }

  // ----- error detection -----

  lemma {:induction false} LuhnSumUpdate(ds: seq<int>, i: nat, d: int)
    requires i < |ds|
    ensures LuhnSum(ds[i := d]) - LuhnSum(ds) ==
      if Even(|ds| - i) then Doubled(d) - Doubled(ds[i]) else d - ds[i]
  {
    hide Even, Doubled;
    if i == 0 {
      assert ds[0 := d][1..] == ds[1..];
    } else {
      LuhnSumUpdate(ds[1..], i - 1, d);
      assert ds[i := d][1..] == ds[1..][i - 1 := d];
    }
  }

  /** Moving away from a multiple of ten keeps it one exactly when the step is one. */
  lemma StepOfTen(x: int, y: int)
    requires x % 10 == 0
    ensures y % 10 == 0 <==> (y - x) % 10 == 0
  {
  }

  lemma DigitDelta(a: int, b: int)
    requires 0 <= a <= 9 && 0 <= b <= 9 && a != b
    ensures (b - a) % 10 != 0 && (Doubled(b) - Doubled(a)) % 10 != 0
  {
  }

  /** Changing one digit of a valid number always breaks it. */
  lemma SingleDigitErrorDetected(ds: seq<int>, i: nat, d: int)
    requires Digits(ds) && LuhnValid(ds) && i < |ds|
    requires 0 <= d <= 9 && d != ds[i]
    ensures !LuhnValid(ds[i := d])
  {
    LuhnSumUpdate(ds, i, d);
    DigitDelta(ds[i], d);
    StepOfTen(LuhnSum(ds), LuhnSum(ds[i := d]));
  }

  lemma SwapDelta(a: int, b: int)
    requires 0 <= a <= 9 && 0 <= b <= 9
    ensures (Doubled(b) - Doubled(a) + a - b) % 10 == 0 <==> a == b || (a == 0 && b == 9) || (a == 9 && b == 0)
  {
  }

  lemma SwapSum(ds: seq<int>, i: nat) returns (d: int)
    requires i + 1 < |ds|
    ensures d == LuhnSum(ds[i := ds[i + 1]][i + 1 := ds[i]]) - LuhnSum(ds)
    ensures || d == Doubled(ds[i + 1]) - Doubled(ds[i]) + ds[i] - ds[i + 1]
            || d == Doubled(ds[i]) - Doubled(ds[i + 1]) + ds[i + 1] - ds[i]
  {
    hide Even, Doubled;
    Parity(|ds| - i - 1);
    var once := ds[i := ds[i + 1]];
    LuhnSumUpdate(ds, i, ds[i + 1]);
    LuhnSumUpdate(once, i + 1, ds[i]);
    d := LuhnSum(once[i + 1 := ds[i]]) - LuhnSum(ds);
  }

  /** Swapping neighbours keeps a valid number valid exactly for equal digits, 09 and 90. */
  lemma AdjacentSwapDetected(ds: seq<int>, i: nat)
    requires Digits(ds) && LuhnValid(ds) && i + 1 < |ds|
    ensures LuhnValid(ds[i := ds[i + 1]][i + 1 := ds[i]]) <==>
      ds[i] == ds[i + 1] || (ds[i] == 0 && ds[i + 1] == 9) || (ds[i] == 9 && ds[i + 1] == 0)
  {
    var d := SwapSum(ds, i);
    SwapDelta(ds[i], ds[i + 1]);
    SwapDelta(ds[i + 1], ds[i]);
    StepOfTen(LuhnSum(ds), LuhnSum(ds[i := ds[i + 1]][i + 1 := ds[i]]));
  }

  // ----- card numbers with separators -----

  predicate CardChar(c: char) {
    IsDigit(c) || c == ' ' || c == '-'
  }

  function DigitOf(c: char): (ds: seq<int>) {
    if IsDigit(c) then [DigitValue(c) as int] else []
  }

  /** The digits of `s`, in order, everything else dropped. */
  function Stripped(s: string): (ds: seq<int>)
    ensures |ds| <= |s|
  {
    if s == [] then [] else DigitOf(s[0]) + Stripped(s[1..])
  }

  lemma {:induction false} StrippedConcat(s: string, t: string)
    ensures Stripped(s + t) == Stripped(s) + Stripped(t)
  {
    if s == [] {
      assert s + t == t;
    } else {
      StrippedConcat(s[1..], t);
      assert (s + t)[1..] == s[1..] + t;
      Associative(DigitOf(s[0]), Stripped(s[1..]), Stripped(t));
    }
  }

  lemma {:induction false} StrippedAllDigits(s: string)
    requires AllDigits(s)
    ensures |Stripped(s)| == |s|
    ensures forall i :: 0 <= i < |s| ==> Stripped(s)[i] == DigitValue(s[i])
  {
    if s != [] {
      StrippedAllDigits(s[1..]);
      assert forall i :: 1 <= i < |s| ==> s[i] == s[1..][i - 1];
    }
  }

  /** A card number: digits, spaces and dashes, 13 to 19 digits, valid by Luhn. */
  predicate ValidCard(s: string) {
    && (forall i :: 0 <= i < |s| ==> CardChar(s[i]))
    && 13 <= |Stripped(s)| <= 19
    && LuhnValid(Stripped(s))
  }

  /** `isValidLuhn`: one scan from the right that skips the separators. */
  method IsValidLuhn(number: string) returns (ok: bool)
    ensures ok == ValidCard(number)
  {
    var sum, alt, digitsCount := 0, false, 0;
    var i := |number| - 1;
    while i >= 0
      invariant -1 <= i < |number|
      invariant forall j :: i < j < |number| ==> CardChar(number[j])
      invariant digitsCount == |Stripped(number[i + 1..])|
      invariant sum == LuhnSum(Stripped(number[i + 1..]))
      invariant alt == !Even(digitsCount)
    {
      hide Even;
      Parity(digitsCount);
      var b := number[i];
      assert number[i..][1..] == number[i + 1..];
      assert Stripped(number[i..]) == DigitOf(b) + Stripped(number[i + 1..]);
      if IsDigit(b) {
        var n := DigitValue(b) as int;
        digitsCount := digitsCount + 1;
        if alt {
          n := n * 2;
          if n > 9 { n := n - 9; }
        }
        LuhnSumCons(DigitValue(b), Stripped(number[i + 1..]));
        sum := sum + n;
        alt := !alt;
      } else if b != ' ' && b != '-' {
        return false;
      } else {
        assert Stripped(number[i..]) == Stripped(number[i + 1..]);
      }
      i := i - 1;
    }
    assert number[0..] == number;
    ok := digitsCount >= 13 && digitsCount <= 19 && sum % 10 == 0;
  }

  /** The longest prefix of `ds` of 13 to `len` digits that is valid, or 0. */
  function LongestValid(ds: seq<int>, len: nat): (r: nat)
    requires len <= |ds|
    ensures r == 0 || (13 <= r <= len && LuhnValid(ds[..r]))
    ensures forall l :: r < l <= len && l >= 13 ==> !LuhnValid(ds[..l])
  {
    if len < 13 then 0
    else if LuhnValid(ds[..len]) then len
    else LongestValid(ds, len - 1)
  }

  /** Index just after the `k`-th digit of `s`. */
  function DigitEnd(s: string, k: nat): (e: nat)
    requires 1 <= k <= |Stripped(s)|
    ensures 1 <= e <= |s| && Stripped(s[..e]) == Stripped(s)[..k]
  {
    if IsDigit(s[0]) && k == 1 then
      assert s[..1][1..] == [];
      1
    else
      var k' := if IsDigit(s[0]) then k - 1 else k;
      var e := 1 + DigitEnd(s[1..], k');
      assert s[..e][1..] == s[1..][..e - 1];
      e
  }

  /** What `longestLuhnCard` finds: the end of the longest valid prefix. */
  function LongestCard(seg: string): (r: Option<nat>)
    ensures r.Some? ==> 1 <= r.value <= |seg|
  {
    var ds := Stripped(seg);
    var l := LongestValid(ds, if |ds| > 19 then 19 else |ds|);
    if l == 0 then None else Some(DigitEnd(seg, l))
  }

  lemma StrippedPrefix(s: string, e: nat)
    requires e <= |s|
    ensures Stripped(s[..e]) <= Stripped(s)
  {
    assert s == s[..e] + s[e..];
    StrippedConcat(s[..e], s[e..]);
  }

  /**
   On digits, spaces and dashes `longestLuhnCard` is correct and maximal: a found
   prefix is a valid card and none with more digits is; otherwise no prefix is.
   */
  lemma LongestCardMaximal(seg: string, p: nat)
    requires forall i :: 0 <= i < |seg| ==> CardChar(seg[i])
    requires p <= |seg|
    ensures LongestCard(seg).Some? ==> ValidCard(seg[..LongestCard(seg).value])
    ensures ValidCard(seg[..p]) ==>
      (LongestCard(seg).Some? && |Stripped(seg[..p])| <= |Stripped(seg[..LongestCard(seg).value])|)
  {
    StrippedPrefix(seg, p);
    var ds := Stripped(seg);
    var k := |Stripped(seg[..p])|;
    assert ds[..k] == Stripped(seg[..p]);
  }

  lemma StrippedSnoc(s: string, c: char)
    ensures Stripped(s + [c]) == Stripped(s) + DigitOf(c)
  {
    StrippedConcat(s, [c]);
    assert [c][1..] == [];
  }

  /** A prefix ending in its `k`-th digit is the one `DigitEnd` names. */
  lemma {:induction false} DigitEndUnique(s: string, e: nat)
    requires 1 <= e <= |s| && IsDigit(s[e - 1])
    ensures 1 <= |Stripped(s[..e])| <= |Stripped(s)|
    ensures DigitEnd(s, |Stripped(s[..e])|) == e
  {
    hide IsDigit, DigitValue;
    StrippedPrefix(s, e);
    assert s[..e] == s[..e - 1] + [s[e - 1]];
    StrippedSnoc(s[..e - 1], s[e - 1]);
    if e > 1 {
      assert s[..e][1..] == s[1..][..e - 1];
      DigitEndUnique(s[1..], e - 1);
    }
  }

  /** The first loop of `longestLuhnCard`: the digits and the index just after each. */
  method CollectDigits(seg: string) returns (digits: seq<int>, ends: seq<nat>)
    ensures digits == Stripped(seg) && |ends| == |digits|
    ensures forall k :: 0 <= k < |ends| ==> ends[k] == DigitEnd(seg, k + 1)
  {
    hide IsDigit, DigitValue, DigitEnd;
    digits, ends := [], [];
    for i := 0 to |seg|
      invariant digits == Stripped(seg[..i]) && |digits| <= |Stripped(seg)| && |ends| == |digits|
      invariant forall k :: 0 <= k < |ends| ==> ends[k] == DigitEnd(seg, k + 1)
    {
      assert seg[..i + 1] == seg[..i] + [seg[i]];
      StrippedSnoc(seg[..i], seg[i]);
      StrippedPrefix(seg, i + 1);
      if IsDigit(seg[i]) {
        digits := digits + [DigitValue(seg[i]) as int];
        ends := ends + [i + 1];
        DigitEndUnique(seg, i + 1);
      }
    }
    assert seg[..|seg|] == seg;
  }

  /** `longestLuhnCard`: tries the prefixes from the longest down to 13 digits. */
  method LongestLuhnCard(seg: string) returns (end: nat, ok: bool)
    ensures ok == LongestCard(seg).Some?
    ensures end == if ok then LongestCard(seg).value else 0
  {
    var digits, ends := CollectDigits(seg);
    var maxL := |digits|;
    if maxL > 19 {
      maxL := 19;
    }
    var L := maxL;
    while L >= 13
      invariant L <= maxL
      invariant LongestValid(digits, if L < 0 then 0 else L) == LongestValid(digits, maxL)
    {
      var valid := LuhnOnDigits(digits[..L]);
      if valid {
        return ends[L - 1], true;
      }
      L := L - 1;
    }
    return 0, false;
  }

  // ----- the formula itself -----

  /** The formula, digit by digit from the right: every second one counts with the digit sum of its double. */
  lemma LuhnFormula(d: int, ds: seq<int>)
    requires 0 <= d <= 9
    ensures LuhnSum([]) == 0
    ensures LuhnSum([d] + ds) == (if |ds| % 2 == 0 then d else (2 * d) / 10 + (2 * d) % 10) + LuhnSum(ds)
  {
    LuhnSumCons(d, ds);
  }

  function Zeros(n: nat): string {
    seq(n, _ => '0')
  }

  lemma {:induction false} ZerosSum(n: nat)
    ensures LuhnSum(seq(n, _ => 0)) == 0
  {
    if n > 0 {
      ZerosSum(n - 1);
      assert seq(n, _ => 0)[1..] == seq(n - 1, _ => 0);
    }
  }

  /** Zeros are valid at any length, and a card number exactly from 13 to 19 digits. */
  lemma ZerosValid(n: nat)
    ensures LuhnValid(seq(n, _ => 0))
    ensures ValidCard(Zeros(n)) <==> 13 <= n <= 19
  {
    ZerosSum(n);
    StrippedAllDigits(Zeros(n));
    assert Stripped(Zeros(n)) == seq(n, _ => 0);
  }

  /** A card number is written with digits, spaces and dashes only. */
  lemma CardText(s: string)
    requires ValidCard(s)
    ensures forall i :: 0 <= i < |s| ==> s[i] in "0123456789 -"
  {
    forall i | 0 <= i < |s| ensures s[i] in "0123456789 -" {
      assert CardChar(s[i]);
      if IsDigit(s[i]) {
        assert s[i] == "0123456789 -"[DigitValue(s[i])];
      } else if s[i] == ' ' {
        assert s[i] == "0123456789 -"[10];
      } else {
        assert s[i] == "0123456789 -"[11];
      }
    }
  }

  predicate AllCardChars(s: string) {
    forall i :: 0 <= i < |s| ==> CardChar(s[i])
  }

  lemma CardCharsConcat(s: string, t: string)
    ensures AllCardChars(s + t) <==> AllCardChars(s) && AllCardChars(t)
  {
    hide CardChar;
    var u := s + t;
    assert forall i :: 0 <= i < |s| ==> u[i] == s[i];
    assert forall i :: 0 <= i < |t| ==> u[|s| + i] == t[i];
  }

  lemma ValidCardIs(s: string)
    ensures ValidCard(s) <==> AllCardChars(s) && 13 <= |Stripped(s)| <= 19 && LuhnValid(Stripped(s))
  {
  }

  /** A space or a dash anywhere makes no difference. */
  lemma SeparatorsIgnored(s: string, c: char, t: string)
    requires c == ' ' || c == '-'
    ensures ValidCard(s + [c] + t) <==> ValidCard(s + t)
  {
    hide ValidCard, AllCardChars, Stripped;
    StrippedSnoc(s, c);
    StrippedConcat(s + [c], t);
    StrippedConcat(s, t);
    SeparatorNoDigit(c);
    assert Stripped(s) + [] == Stripped(s);
    CardCharsConcat(s, [c]);
    CardCharsConcat(s + [c], t);
    CardCharsConcat(s, t);
    ValidCardIs(s + [c] + t);
    ValidCardIs(s + t);
  }

  lemma SeparatorNoDigit(c: char)
    requires c == ' ' || c == '-'
    ensures DigitOf(c) == [] && AllCardChars([c])
  {
  }
}
