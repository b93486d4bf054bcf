/**
 Which generators can give the same value, and when a generator has a value left: exactly
 while fewer values than its period are used up among those it can give.
 */
module FakePools {
  import opened Common
  import opened Decimal
  import opened Modular
  import opened Tokens
  import opened Fakes
  import opened FakePeriods
  import opened Retry
  import opened Synth

  /** Generators in one pool may give the same value; those in different pools never do. */
  function Pool(kind: Kind): Kind {
    match kind
    case Cvv => Digits(3)
    case Pin => Digits(4)
    case Inn => Digits(12)
    case _ => kind
  }

  /** Every value of `a` is a value of `b`. */
  predicate Inside(a: Kind, b: Kind) {
    a == b || (a, b) in {(Cvv, Digits(3)), (Pin, Digits(4)), (Digits(12), Inn)}
  }

  // ----- reading the pool back from a value -----

  function Spaces(s: string): nat {
    if s == [] then 0 else (if s[0] == ' ' then 1 else 0) + Spaces(s[1..])
  }

  lemma {:induction false} SpacesConcat(s: string, t: string)
    ensures Spaces(s + t) == Spaces(s) + Spaces(t)
  {
    if s == [] {
      assert s + t == t;
    } else {
      SpacesConcat(s[1..], t);
      assert (s + t)[1..] == s[1..] + t;
    }
  }

  lemma {:induction false} NoSpaces(s: string)
    requires ' ' !in s
    ensures Spaces(s) == 0
  {
    if s != [] {
      NoSpaces(s[1..]);
    }
  }

  /** The pool of a value that starts with a digit. */
  function NumberPool(v: string): Kind {
    if AllDigits(v) then Digits(|v|)
    else if |v| == 19 then Card
    else if |v| == 5 then CardExp
    else if |v| == 14 then Snils
    else if |v| == 12 then Passport
    else if |v| == 7 then PassCode
    else if |v| == 10 && v[2] == '.' then Date
    else PassportIntl
  }

  /** `v` starts with the three letters of `p`. */
  predicate Starts(v: string, p: string)
    requires |p| == 3
  {
    |v| >= 3 && v[0] == p[0] && v[1] == p[1] && v[2] == p[2]
  }

  predicate StartsAsBirthplace(v: string) {
    Starts(v, "Тул") || Starts(v, "Ряз") || Starts(v, "Кал") || Starts(v, "Тве")
  }

  predicate StartsAsStreet(v: string) {
    || Starts(v, "Кле") || Starts(v, "Сад") || Starts(v, "Гаг") || Starts(v, "Мир")
    || Starts(v, "Зар") || Starts(v, "Пол") || Starts(v, "Лес") || Starts(v, "Цен")
  }

  /** The pool of a value that starts with a letter. */
  function WordPool(v: string): Kind {
    if v == [] then LastOnly
    else if v[0] == 'u' then Email
    else if v[0] in {'I', 'P', 'S', 'R'} then CardHolder
    else if v == "РФ" || Starts(v, "Рос") then Citizenship
    else if StartsAsBirthplace(v) then Birthplace
    else if StartsAsStreet(v) then Street
    else if Spaces(v) == 0 then LastOnly
    else if Spaces(v) == 1 then LastFirst
    else FullName
  }

  function PoolOf(v: string): Kind {
    if v == [] || v[0] == '[' then NoGenerator
    else if v[0] == '+' then Phone
    else if IsDigit(v[0]) then NumberPool(v)
    else WordPool(v)
  }

  /** Starts as a surname and as no other value. */
  predicate StartsAsSurname(v: string) {
    && |v| >= 3
    && v[0] !in {'[', '+', 'u', 'I', 'P', 'S', 'R'} && !IsDigit(v[0])
    && !Starts(v, "Рос") && !StartsAsBirthplace(v) && !StartsAsStreet(v)
  }

  lemma LastStart(i: nat)
    requires i < 10
    ensures StartsAsSurname(SynthLast(i)) && Spaces(SynthLast(i)) == 0
  {
    LastLetters(i);
    LastSpaces(i);
  }

  lemma LastLetters(i: nat)
    requires i < 10
    ensures StartsAsSurname(SynthLast(i))
  {
  }

  lemma LastSpaces(i: nat)
    requires i < 10
    ensures Spaces(SynthLast(i)) == 0
  {
    NoSpaces(SynthLast(i));
  }

  lemma SurnameFirst(s: string, t: string)
    requires StartsAsSurname(s)
    ensures StartsAsSurname(s + t)
  {
    assert (s + t)[0] == s[0] && (s + t)[1] == s[1] && (s + t)[2] == s[2];
  }

  lemma FirstSpaces(i: nat)
    requires i < 10
    ensures Spaces(SynthFirst(i)) == 0
  {
    NoSpaces(SynthFirst(i));
  }

  lemma PatrSpaces(i: nat)
    requires i < 6
    ensures Spaces(SynthPatr(i)) == 0
  {
    NoSpaces(SynthPatr(i));
  }

  lemma SpacesBetween(s: string, t: string)
    ensures Spaces(s + " " + t) == Spaces(s) + 1 + Spaces(t)
  {
    SpacesConcat(s + " ", t);
    SpacesConcat(s, " ");
    assert Spaces(" ") == 1 + Spaces(" "[1..]);
  }

  lemma NamePool(i: nat, j: nat, k: nat)
    requires i < 10 && j < 10 && k < 6
    ensures PoolOf(SynthLast(i)) == LastOnly
    ensures PoolOf(SynthLast(i) + " " + SynthFirst(j)) == LastFirst
    ensures PoolOf(SynthLast(i) + " " + SynthFirst(j) + " " + SynthPatr(k)) == FullName
  {
    var s, t, u := SynthLast(i), SynthFirst(j), SynthPatr(k);
    LastStart(i);
    FirstSpaces(j);
    PatrSpaces(k);
    hide SynthLast, SynthFirst, SynthPatr, Spaces, Starts;
    SurnamePool(s);
    SurnameFirst(s, " " + t);
    assert s + (" " + t) == s + " " + t;
    SpacesBetween(s, t);
    SurnamePool(s + " " + t);
    SurnameFirst(s + " " + t, " " + u);
    assert s + " " + t + (" " + u) == s + " " + t + " " + u;
    SpacesBetween(s + " " + t, u);
    SurnamePool(s + " " + t + " " + u);
  }

  lemma SurnamePool(v: string)
    requires StartsAsSurname(v)
    ensures PoolOf(v) == if Spaces(v) == 0 then LastOnly else if Spaces(v) == 1 then LastFirst else FullName
  {
  }

  lemma HolderPool(i: nat)
    requires i < 4
    ensures PoolOf(SynthHolder(i)) == CardHolder
  {
    hide Spaces, AllDigits, Starts;
  }

  lemma CityPool(i: nat)
    requires i < 8
    ensures PoolOf(SynthCity(i)) == Street
  {
    hide Spaces, AllDigits;
  }

  lemma CitizenshipPool(i: nat)
    requires i < 3
    ensures PoolOf(SynthCitizenship(i)) == Citizenship
  {
    hide Spaces, AllDigits;
  }

  lemma BirthplacePool(i: nat)
    requires i < 4
    ensures PoolOf(SynthBirthplace(i)) == Birthplace
  {
    hide Spaces, AllDigits;
  }

  // ----- numbers -----

  lemma CodePool(n: nat)
    ensures PoolOf(Pad(100 + n % 900, 3)) == Digits(3)
    ensures PoolOf(Pad(1000 + n % 9000, 4)) == Digits(4)
    ensures PoolOf(Pad((n * 104729) % 1_000_000_000_000, 12)) == Digits(12)
  {
    hide Pad;
    assert Pow10(3) == 1000 && Pow10(4) == 10_000 && Pow10(12) == 1_000_000_000_000;
    PadWidth(100 + n % 900, 3);
    PadWidth(1000 + n % 9000, 4);
    PadWidth((n * 104729) % 1_000_000_000_000, 12);
    DigitsPool(Pad(100 + n % 900, 3));
    DigitsPool(Pad(1000 + n % 9000, 4));
    DigitsPool(Pad((n * 104729) % 1_000_000_000_000, 12));
  }

  lemma DigitsPool(v: string)
    requires v != [] && AllDigits(v)
    ensures PoolOf(v) == Digits(|v|)
  {
  }

  lemma AddressPool(len: nat, n: nat)
    requires len > 0
    ensures PoolOf(Pad((n * 7) % CappedPow10(len), len)) == Digits(len)
  {
    hide Pad, Pow10;
    Pow10Grows(if len < 9 then len else 9, len);
    PadWidth((n * 7) % CappedPow10(len), len);
    DigitsPool(Pad((n * 7) % CappedPow10(len), len));
  }

  /** A value of length `|v|` with a digit first and a separator at `i`. */
  lemma SeparatedPool(v: string, i: nat)
    requires 0 < i < |v| && IsDigit(v[0]) && !IsDigit(v[i])
    ensures PoolOf(v) ==
      if |v| == 19 then Card else if |v| == 5 then CardExp else if |v| == 14 then Snils
      else if |v| == 12 then Passport else if |v| == 7 then PassCode
      else if |v| == 10 && v[2] == '.' then Date else PassportIntl
  {
  }

  lemma PhonePool(n: nat)
    ensures PoolOf(FakePhone(n)) == Phone
  {
    hide Pad;
    assert FakePhone(n)[0] == '+';
  }

  lemma EmailPool(n: nat)
    ensures PoolOf("user" + Itoa(n) + "@example.com") == Email
  {
    hide Itoa;
    assert ("user" + Itoa(n) + "@example.com")[0] == 'u';
  }

  lemma CardPool(n: nat)
    ensures PoolOf(FakeCard(n)) == Card
  {
    hide CardFull;
    assert FakeCard(n)[0] == CardFull(n)[0] && FakeCard(n)[4] == ' ';
    SeparatedPool(FakeCard(n), 4);
  }

  lemma CardExpPool(n: nat)
    ensures PoolOf(FakeCardExp(n)) == CardExp
  {
    hide Pad;
    CardExpFields(n);
    assert FakeCardExp(n)[0] == FakeCardExp(n)[0..2][0];
    PadWidth(n % 12 + 1, 2);
    SeparatedPool(FakeCardExp(n), 2);
  }

  lemma DatePool(n: nat)
    ensures PoolOf(FakeDate(n)) == Date
  {
    hide Pad;
    DateFields(n);
    assert FakeDate(n)[0] == FakeDate(n)[0..2][0];
    PadWidth(n % 28 + 1, 2);
    SeparatedPool(FakeDate(n), 2);
  }

  lemma PassportPool(n: nat)
    ensures PoolOf(FakePassport(n)) == Passport
  {
    hide Pad;
    PassportFields(n);
    PadWidth(40 + n % 50, 2);
    SeparatedPool(FakePassport(n), 2);
  }

  lemma PassportIntlPool(n: nat)
    ensures PoolOf(FakePassportIntl(n)) == PassportIntl
  {
    hide Pad;
    PassportIntlFields(n);
    PadWidth(70 + n % 9, 2);
    SeparatedPool(FakePassportIntl(n), 2);
  }

  lemma SnilsPool(n: nat)
    ensures PoolOf(FakeSnils(n)) == Snils
  {
    hide Pad;
    PadWidth(n % 1000, 3);
    PadWidth((n * 3) % 1000, 3);
    PadWidth((n * 7) % 1000, 3);
    PadWidth(n % 100, 2);
    SeparatedPool(FakeSnils(n), 3);
  }

  lemma PassCodePool(n: nat)
    ensures PoolOf(FakePassCode(n)) == PassCode
  {
    hide Pad;
    PadWidth(n % 1000, 3);
    PadWidth((n * 5) % 1000, 3);
    SeparatedPool(FakePassCode(n), 3);
  }

  lemma WordsReadBack(kind: Kind, typ: string, counter: nat, n: nat)
    requires UsesWords(kind)
    ensures PoolOf(Fake(kind, typ, counter, n)) == Pool(kind)
  {
    hide PoolOf, SynthLast, SynthFirst, SynthPatr, SynthHolder, SynthCity, SynthCitizenship, SynthBirthplace;
    match kind
    case LastOnly => NamePool(n % 10, 0, 0);
    case LastFirst => NamePool(n % 10, (n / 10) % 10, 0);
    case FullName => NamePool(n % 10, (n / 10) % 10, n % 6);
    case CardHolder => HolderPool(n % 4);
    case Street => CityPool(n % 8);
    case Citizenship => CitizenshipPool(n % 3);
    case Birthplace => BirthplacePool(n % 4);
  }

  lemma NumbersReadBack(kind: Kind, typ: string, counter: nat, n: nat)
    requires !UsesWords(kind) && kind != Digits(0)
    ensures PoolOf(Fake(kind, typ, counter, n)) == Pool(kind)
  {
    hide PoolOf, Pad, FakePhone, FakeCard, FakeCardExp, FakeDate, FakePassport, FakePassportIntl, FakeSnils,
      FakePassCode;
    match kind
    case Phone => PhonePool(n);
    case Email => EmailPool(n);
    case Card => CardPool(n);
    case CardExp => CardExpPool(n);
    case Cvv => CodePool(n);
    case Pin => CodePool(n);
    case Date => DatePool(n);
    case Passport => PassportPool(n);
    case PassportIntl => PassportIntlPool(n);
    case Snils => SnilsPool(n);
    case Inn => CodePool(n);
    case PassCode => PassCodePool(n);
    case Digits(len) => AddressPool(len, n);
    case NoGenerator => PlaceholderPool(typ, counter);
  }

  lemma PlaceholderPool(typ: string, counter: nat)
    ensures PoolOf(Placeholder(typ, counter)) == NoGenerator
  {
    assert Placeholder(typ, counter)[0] == '[';
  }

  /** The pool can be read back from the value, so generators of different pools never give the same. */
  lemma PoolReadBack(kind: Kind, typ: string, counter: nat, n: nat)
    requires kind != Digits(0)
    ensures PoolOf(Fake(kind, typ, counter, n)) == Pool(kind)
  {
    hide PoolOf, Fake, Pool;
    if UsesWords(kind) {
      WordsReadBack(kind, typ, counter, n);
    } else {
      NumbersReadBack(kind, typ, counter, n);
    }
  }

  // ----- the values a generator can give -----

  /** All values of a generator with a period; they depend on neither the type's name nor the counter. */
  ghost function Range(kind: Kind): set<string>
    requires Period(kind).Some?
  {
    Window(Attempts(kind, "", 0), Period(kind).value)
  }

  lemma RangeSize(kind: Kind)
    requires Period(kind).Some?
    ensures |Range(kind)| == Period(kind).value
  {
    AttemptsCycle(kind, "", 0, Period(kind).value);
    WindowSize(Attempts(kind, "", 0), Period(kind).value);
  }

  lemma SameValues(kind: Kind, typ: string, counter: nat, n: nat)
    requires kind != NoGenerator
    ensures Fake(kind, typ, counter, n) == Fake(kind, "", 0, n)
  {
  }

  /** Every try of the generator is one of its values. */
  lemma TryInRange(kind: Kind, typ: string, counter: nat, a: nat)
    requires Period(kind).Some? && kind != NoGenerator
    ensures Fake(kind, typ, counter, a) in Range(kind)
  {
    hide Fake, Period, Window;
    var p, tries := Period(kind).value, Attempts(kind, "", 0);
    SameValues(kind, typ, counter, a);
    AttemptsCycle(kind, "", 0, p);
    assert RepeatsAt(tries, p, a);
    var r: nat :| r < p && tries(a) == tries(r);
    InWindow(tries, p, tries(r));
  }

  /** Wherever the counter starts, each of the values is tried. */
  lemma RangeIsTried(kind: Kind, typ: string, counter: nat, v: string) returns (a: nat)
    requires Period(kind).Some? && kind != NoGenerator && v in Range(kind)
    ensures Attempts(kind, typ, counter)(a) == v
  {
    hide Fake, Period, Window;
    var p := Period(kind).value;
    InWindow(Attempts(kind, "", 0), p, v);
    var n: nat :| n < p && v == Attempts(kind, "", 0)(n);
    a := n + (p - 1) * counter;
    Periodic(kind, typ, counter, n, counter);
    SameValues(kind, typ, counter, n);
    assert counter + a == n + p * counter;
  }

  /** The loop of `synthValue` stops exactly while fewer values than the period are used among those it can give. */
  lemma StopsByCount(kind: Kind, typ: string, counter: nat, used: set<string>)
    requires Period(kind).Some? && kind != NoGenerator
    ensures FreshExists(Attempts(kind, typ, counter), used) <==> |used * Range(kind)| < Period(kind).value
  {
    hide Fake, Period, Range;
    var taken, all, tries := used * Range(kind), Range(kind), Attempts(kind, typ, counter);
    RangeSize(kind);
    if FreshExists(tries, used) {
      var a: nat :| tries(a) !in used;
      TryInRange(kind, typ, counter, counter + a);
      SubsetSize(taken, all - {tries(a)});
    } else if all <= used {
      assert taken == all;
    } else {
      var v :| v in all && v !in used;
      var a := RangeIsTried(kind, typ, counter, v);
      assert false;
    }
  }

  /** Values of another pool are none of the generator's. */
  lemma OtherPool(a: Kind, b: Kind, typ: string, counter: nat, n: nat)
    requires Period(b).Some? && b != NoGenerator && a != Digits(0) && b != Digits(0) && Pool(a) != Pool(b)
    ensures Fake(a, typ, counter, n) !in Range(b)
  {
    hide Fake, Period, Pool, PoolOf, Window;
    var v, tries := Fake(a, typ, counter, n), Attempts(b, "", 0);
    PoolReadBack(a, typ, counter, n);
    InWindow(tries, Period(b).value, v);
    if v in Range(b) {
      var m: nat :| m < Period(b).value && v == tries(m);
      PoolReadBack(b, "", 0, m);
      assert false;
    }
  }

  lemma WideCode(x: nat)
    requires x < 10_000
    ensures x < 1000 ==> (x * 143 * 7) % 1000 == x
    ensures (x * 7143 * 7) % 10_000 == x
  {
    RemainderIs(x * 7143 * 7, 10_000, x * 5, x);
    if x < 1000 {
      RemainderIs(x * 143 * 7, 1000, x, x);
    }
  }

  lemma WideInn(x: nat)
    requires x < 1_000_000_000
    ensures (x * 753964995369 * 104729) % 1_000_000_000_000 == x
  {
    RemainderIs(x * 753964995369 * 104729, 1_000_000_000_000, x * 78962, x);
  }

  lemma ShortPowers()
    ensures CappedPow10(3) == 1000 && CappedPow10(4) == 10_000 && CappedPow10(12) == 1_000_000_000
  {
    assert Pow10(9) == 1_000_000_000;
  }

  /** A three- or four-digit code, or a short number padded to twelve digits, is also a value of the wider generator. */
  lemma InsideValue(a: Kind, b: Kind, n: nat) returns (m: nat)
    requires Inside(a, b) && a != NoGenerator
    ensures Fake(a, "", 0, n) == Fake(b, "", 0, m)
  {
    hide Pad, CappedPow10, FakePhone, FakeCard, FakeCardExp, FakeDate, FakePassport, FakePassportIntl, FakeSnils,
      FakePassCode;
    ShortPowers();
    m := n;
    if a != b {
      if a == Cvv {
        m := (100 + n % 900) * 143;
        WideCode(100 + n % 900);
      } else if a == Pin {
        m := (1000 + n % 9000) * 7143;
        WideCode(1000 + n % 9000);
      } else {
        var x := (n * 7) % 1_000_000_000;
        m := x * 753964995369;
        WideInn(x);
      }
    }
  }

  lemma InsideRange(a: Kind, b: Kind, typ: string, counter: nat, n: nat)
    requires Period(b).Some? && Inside(a, b) && a != NoGenerator
    ensures Fake(a, typ, counter, n) in Range(b)
  {
    hide Fake, Period, Range;
    var m := InsideValue(a, b, n);
    SameValues(a, typ, counter, n);
    TryInRange(b, "", 0, m);
  }
}
