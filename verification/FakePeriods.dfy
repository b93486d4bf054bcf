/** Distinctness within a period, periodicity, and the resulting bound on `synthValue`. */
module FakePeriods {
  import opened Decimal
  import opened Modular
  import opened Fakes

  // ----- reading the fields back -----

  lemma PhoneFields(n: nat)
    ensures var v := FakePhone(n);
      && |v| == 16 && v[..4] == "+7 9" && v[6] == ' ' && v[10] == '-' && v[13] == '-'
      && v[4..6] == Pad(n % 100, 2) && v[7..10] == Pad((n * 7) % 1000, 3)
      && v[11..13] == Pad(n % 100, 2) && v[14..16] == Pad((n * 3) % 100, 2)
  {
    hide Pad;
    PadWidth(n % 100, 2);
    PadWidth((n * 7) % 1000, 3);
    PadWidth((n * 3) % 100, 2);
  }

  lemma CardExpFields(n: nat)
    ensures var v := FakeCardExp(n);
      && |v| == 5 && v[2] == '/' && v[0..2] == Pad(n % 12 + 1, 2) && v[3..5] == Pad(30 + n % 9, 2)
  {
    hide Pad;
    PadWidth(n % 12 + 1, 2);
    PadWidth(30 + n % 9, 2);
  }

  lemma DateFields(n: nat)
    ensures var v := FakeDate(n);
      && |v| == 10 && v[2] == '.' && v[5..8] == ".19"
      && v[0..2] == Pad(n % 28 + 1, 2) && v[3..5] == Pad(n % 12 + 1, 2) && v[8..10] == Pad(60 + n % 39, 2)
  {
    hide Pad;
    PadWidth(n % 28 + 1, 2);
    PadWidth(n % 12 + 1, 2);
    PadWidth(60 + n % 39, 2);
  }

  lemma PassportFields(n: nat)
    ensures var v := FakePassport(n);
      && |v| == 12 && v[2] == ' ' && v[5] == ' '
      && v[0..2] == Pad(40 + n % 50, 2) && v[3..5] == Pad(10 + n % 89, 2)
      && v[6..12] == Pad((n * 137) % 1_000_000, 6)
  {
    hide Pad;
    assert Pow10(6) == 1_000_000;
    PadWidth(40 + n % 50, 2);
    PadWidth(10 + n % 89, 2);
    PadWidth((n * 137) % 1_000_000, 6);
  }

  lemma PassportIntlFields(n: nat)
    ensures var v := FakePassportIntl(n);
      && |v| == 10 && v[2] == ' '
      && v[0..2] == Pad(70 + n % 9, 2) && v[3..10] == Pad((n * 911) % 10_000_000, 7)
  {
    hide Pad;
    assert Pow10(7) == 10_000_000;
    PadWidth(70 + n % 9, 2);
    PadWidth((n * 911) % 10_000_000, 7);
  }

  lemma SnilsFields(n: nat)
    ensures var v := FakeSnils(n);
      && |v| == 14 && v[3] == '-' && v[7] == '-' && v[11] == ' '
      && v[0..3] == Pad(n % 1000, 3) && v[4..7] == Pad((n * 3) % 1000, 3)
      && v[8..11] == Pad((n * 7) % 1000, 3) && v[12..14] == Pad(n % 100, 2)
  {
    hide Pad;
    PadWidth(n % 1000, 3);
    PadWidth((n * 3) % 1000, 3);
    PadWidth((n * 7) % 1000, 3);
    PadWidth(n % 100, 2);
  }

  lemma PassCodeFields(n: nat)
    ensures var v := FakePassCode(n);
      && |v| == 7 && v[3] == '-' && v[0..3] == Pad(n % 1000, 3) && v[4..7] == Pad((n * 5) % 1000, 3)
  {
    hide Pad;
    PadWidth(n % 1000, 3);
    PadWidth((n * 5) % 1000, 3);
  }

  /** Index of a surname by its first two letters. */
  function LastIndex(a: char, b: char): int {
    if a == 'С' && b == 'м' then 0 else if a == 'К' && b == 'у' then 1 else if a == 'П' then 2
    else if a == 'С' then 3 else if a == 'Л' then 4 else if a == 'К' then 5 else if a == 'Н' then 6
    else if a == 'М' then 7 else if a == 'В' then 8 else 9
  }

  lemma LastReadBack(i: nat)
    requires i < 10
    ensures |SynthLast(i)| >= 2 && LastIndex(SynthLast(i)[0], SynthLast(i)[1]) == i
  {
  }

  /** Index of a given name by its first two letters. */
  function FirstIndex(a: char, b: char): int {
    if a == 'П' then 0 else if a == 'И' then 1 else if a == 'С' then 2
    else if a == 'А' && b == 'л' then 3 else if a == 'Д' then 4 else if a == 'Н' then 5
    else if a == 'А' then 6 else if a == 'М' then 7 else if a == 'Е' then 8 else 9
  }

  lemma FirstReadBack(i: nat)
    requires i < 10
    ensures |SynthFirst(i)| >= 2 && FirstIndex(SynthFirst(i)[0], SynthFirst(i)[1]) == i
  {
  }

  lemma PatrDistinct(i: nat, j: nat)
    requires i < 6 && j < 6 && SynthPatr(i) == SynthPatr(j)
    ensures i == j
  {
    assert SynthPatr(i)[0] == SynthPatr(j)[0];
  }

  lemma CityDistinct(i: nat, j: nat)
    requires i < 8 && j < 8 && SynthCity(i) == SynthCity(j)
    ensures i == j
  {
    assert SynthCity(i)[0] == SynthCity(j)[0];
  }

  lemma HolderDistinct(i: nat, j: nat)
    requires i < 4 && j < 4 && SynthHolder(i) == SynthHolder(j)
    ensures i == j
  {
    assert SynthHolder(i)[0] == SynthHolder(j)[0];
  }

  lemma CitizenshipDistinct(i: nat, j: nat)
    requires i < 3 && j < 3 && SynthCitizenship(i) == SynthCitizenship(j)
    ensures i == j
  {
    assert |SynthCitizenship(i)| == |SynthCitizenship(j)|;
  }

  lemma BirthplaceDistinct(i: nat, j: nat)
    requires i < 4 && j < 4 && SynthBirthplace(i) == SynthBirthplace(j)
    ensures i == j
  {
    assert |SynthBirthplace(i)| == |SynthBirthplace(j)|;
    assert SynthBirthplace(i)[0] == SynthBirthplace(j)[0];
  }

  /** Equal names that start with a surname have the same surname and the same rest. */
  lemma SameLast(i: nat, j: nat, s: string, t: string)
    requires i < 10 && j < 10 && SynthLast(i) + " " + s == SynthLast(j) + " " + t
    ensures i == j && s == t
  {
    var v, w := SynthLast(i) + " " + s, SynthLast(j) + " " + t;
    LastReadBack(i);
    LastReadBack(j);
    assert v[0] == SynthLast(i)[0] && v[1] == SynthLast(i)[1];
    assert w[0] == SynthLast(j)[0] && w[1] == SynthLast(j)[1];
    assert v[|SynthLast(i)| + 1..] == s && w[|SynthLast(i)| + 1..] == t;
  }

  lemma SameFirst(i: nat, j: nat, s: string, t: string)
    requires i < 10 && j < 10 && SynthFirst(i) + s == SynthFirst(j) + t
    ensures i == j && s == t
  {
    var v, w := SynthFirst(i) + s, SynthFirst(j) + t;
    FirstReadBack(i);
    FirstReadBack(j);
    assert v[0] == SynthFirst(i)[0] && v[1] == SynthFirst(i)[1];
    assert w[0] == SynthFirst(j)[0] && w[1] == SynthFirst(j)[1];
    assert v[|SynthFirst(i)|..] == s && w[|SynthFirst(i)|..] == t;
  }

  // ----- pairwise distinct within a period -----

  lemma LastOnlyDistinct(n: nat, m: nat)
    requires n < m < n + 10
    ensures SynthLast(n % 10) != SynthLast(m % 10)
  {
    LastReadBack(n % 10);
    LastReadBack(m % 10);
  }

  lemma TensDigits(n: nat, m: nat)
    requires n % 10 == m % 10 && (n / 10) % 10 == (m / 10) % 10
    ensures (m - n) % 100 == 0
  {
  }

  lemma LastFirstDistinct(n: nat, m: nat)
    requires n < m < n + 100
    ensures SynthLast(n % 10) + " " + SynthFirst((n / 10) % 10) != SynthLast(m % 10) + " " + SynthFirst((m / 10) % 10)
  {
    var i, j := (n / 10) % 10, (m / 10) % 10;
    if SynthLast(n % 10) + " " + SynthFirst(i) == SynthLast(m % 10) + " " + SynthFirst(j) {
      SameLast(n % 10, m % 10, SynthFirst(i), SynthFirst(j));
      assert SynthFirst(i) + [] == SynthFirst(j) + [];
      SameFirst(i, j, [], []);
      TensDigits(n, m);
      NoSmallMultiple(m - n, 100);
    }
  }

  function FullNameRest(n: nat): string {
    SynthFirst((n / 10) % 10) + (" " + SynthPatr(n % 6))
  }

  lemma FullNameParts(n: nat)
    ensures SynthLast(n % 10) + " " + SynthFirst((n / 10) % 10) + " " + SynthPatr(n % 6)
         == SynthLast(n % 10) + " " + FullNameRest(n)
  {
  }

  lemma FullNameDistinct(n: nat, m: nat)
    requires n < m < n + 300
    ensures SynthLast(n % 10) + " " + FullNameRest(n) != SynthLast(m % 10) + " " + FullNameRest(m)
  {
    var i, j := (n / 10) % 10, (m / 10) % 10;
    if SynthLast(n % 10) + " " + FullNameRest(n) == SynthLast(m % 10) + " " + FullNameRest(m) {
      SameLast(n % 10, m % 10, FullNameRest(n), FullNameRest(m));
      var s, t := " " + SynthPatr(n % 6), " " + SynthPatr(m % 6);
      SameFirst(i, j, s, t);
      assert s[1..] == SynthPatr(n % 6) && t[1..] == SynthPatr(m % 6);
      PatrDistinct(n % 6, m % 6);
      TensDigits(n, m);
      SameRemainder(n, m, 6);
      CoprimeProduct(m - n, 3, 100, 67, 2);
      NoSmallMultiple(m - n, 300);
    }
  }

  lemma PhoneDistinct(n: nat, m: nat)
    requires n < m < n + 1000
    ensures FakePhone(n) != FakePhone(m)
  {
    if FakePhone(n) == FakePhone(m) {
      PhoneFields(n);
      PhoneFields(m);
      PadInjective((n * 7) % 1000, (m * 7) % 1000, 3, 3);
      InvertibleFactor(n, m, 7, 1000, 143, 1);
      NoSmallMultiple(m - n, 1000);
    }
  }

  lemma EmailDistinct(n: nat, m: nat)
    requires n != m
    ensures "user" + Itoa(n) + "@example.com" != "user" + Itoa(m) + "@example.com"
  {
    var v, w := "user" + Itoa(n) + "@example.com", "user" + Itoa(m) + "@example.com";
    if v == w {
      assert v[4..|v| - 12] == Itoa(n) && w[4..|w| - 12] == Itoa(m);
      PadInjective(n, m, 1, 1);
      assert false;
    }
  }

  lemma CardExpDistinct(n: nat, m: nat)
    requires n < m < n + 36
    ensures FakeCardExp(n) != FakeCardExp(m)
  {
    if FakeCardExp(n) == FakeCardExp(m) {
      CardExpFields(n);
      CardExpFields(m);
      PadInjective(n % 12 + 1, m % 12 + 1, 2, 2);
      PadInjective(30 + n % 9, 30 + m % 9, 2, 2);
      SameRemainder(n, m, 12);
      SameRemainder(n, m, 9);
      CoprimeProduct(m - n, 4, 9, 7, 3);
      NoSmallMultiple(m - n, 36);
    }
  }

  lemma CommonMultiple1092(d: int)
    requires d % 28 == 0 && d % 12 == 0 && d % 39 == 0
    ensures d % 1092 == 0
  {
    assert d % 7 == 0;
    CoprimeProduct(d, 7, 12, 7, 4);
    assert d % 13 == 0;
    CoprimeProduct(d, 13, 84, 13, 2);
  }

  lemma DateDistinct(n: nat, m: nat)
    requires n < m < n + 1092
    ensures FakeDate(n) != FakeDate(m)
  {
    if FakeDate(n) == FakeDate(m) {
      DateFields(n);
      DateFields(m);
      PadInjective(n % 28 + 1, m % 28 + 1, 2, 2);
      PadInjective(n % 12 + 1, m % 12 + 1, 2, 2);
      PadInjective(60 + n % 39, 60 + m % 39, 2, 2);
      SameRemainder(n, m, 28);
      SameRemainder(n, m, 12);
      SameRemainder(n, m, 39);
      CommonMultiple1092(m - n);
      NoSmallMultiple(m - n, 1092);
    }
  }

  lemma PassportDistinct(n: nat, m: nat)
    requires n < m < n + 89_000_000
    ensures FakePassport(n) != FakePassport(m)
  {
    if FakePassport(n) == FakePassport(m) {
      PassportFields(n);
      PassportFields(m);
      PadInjective(10 + n % 89, 10 + m % 89, 2, 2);
      PadInjective((n * 137) % 1_000_000, (m * 137) % 1_000_000, 6, 6);
      SameRemainder(n, m, 89);
      InvertibleFactor(n, m, 137, 1_000_000, 270073, 37);
      CoprimeProduct(m - n, 89, 1_000_000, 752809, 67);
      NoSmallMultiple(m - n, 89_000_000);
    }
  }

  lemma PassportIntlDistinct(n: nat, m: nat)
    requires n < m < n + 90_000_000
    ensures FakePassportIntl(n) != FakePassportIntl(m)
  {
    if FakePassportIntl(n) == FakePassportIntl(m) {
      PassportIntlFields(n);
      PassportIntlFields(m);
      PadInjective(70 + n % 9, 70 + m % 9, 2, 2);
      PadInjective((n * 911) % 10_000_000, (m * 911) % 10_000_000, 7, 7);
      SameRemainder(n, m, 9);
      InvertibleFactor(n, m, 911, 10_000_000, 2766191, 252);
      CoprimeProduct(m - n, 9, 10_000_000, 8888889, 8);
      NoSmallMultiple(m - n, 90_000_000);
    }
  }

  lemma SnilsDistinct(n: nat, m: nat)
    requires n < m < n + 1000
    ensures FakeSnils(n) != FakeSnils(m)
  {
    if FakeSnils(n) == FakeSnils(m) {
      SnilsFields(n);
      SnilsFields(m);
      PadInjective(n % 1000, m % 1000, 3, 3);
      SameRemainder(n, m, 1000);
      NoSmallMultiple(m - n, 1000);
    }
  }

  lemma PassCodeDistinct(n: nat, m: nat)
    requires n < m < n + 1000
    ensures FakePassCode(n) != FakePassCode(m)
  {
    if FakePassCode(n) == FakePassCode(m) {
      PassCodeFields(n);
      PassCodeFields(m);
      PadInjective(n % 1000, m % 1000, 3, 3);
      SameRemainder(n, m, 1000);
      NoSmallMultiple(m - n, 1000);
    }
  }

  lemma InnDistinct(n: nat, m: nat)
    requires n < m < n + 1_000_000_000_000
    ensures Pad((n * 104729) % 1_000_000_000_000, 12) != Pad((m * 104729) % 1_000_000_000_000, 12)
  {
    var x, y := (n * 104729) % 1_000_000_000_000, (m * 104729) % 1_000_000_000_000;
    PadInjective(x, y, 12, 12);
    if x == y {
      InvertibleFactor(n, m, 104729, 1_000_000_000_000, 753964995369, 78962);
      NoSmallMultiple(m - n, 1_000_000_000_000);
    }
  }

  lemma {:induction false} Pow10Split(k: nat, j: nat)
    ensures Pow10(k) * Pow10(j) == Pow10(k + j)
  {
    if k > 0 {
      Pow10Split(k - 1, j);
      assert Pow10(k) * Pow10(j) == 10 * (Pow10(k - 1) * Pow10(j));
    }
  }

  lemma DigitsDistinct(len: nat, n: nat, m: nat)
    requires n < m < n + CappedPow10(len)
    ensures Pad((n * 7) % CappedPow10(len), len) != Pad((m * 7) % CappedPow10(len), len)
  {
    var k := if len < 9 then len else 9;
    var p := CappedPow10(len);
    PadInjective((n * 7) % p, (m * 7) % p, len, len);
    if (n * 7) % p == (m * 7) % p {
      Pow10Split(k, 9 - k);
      assert Pow10(9) == 1_000_000_000;
      InvertibleFactor(n, m, 7, p, 142857143, Pow10(9 - k));
      NoSmallMultiple(m - n, p);
    }
  }

  lemma HolderPeriod(n: nat, m: nat)
    requires n < m < n + 4
    ensures SynthHolder(n % 4) != SynthHolder(m % 4)
  {
    if SynthHolder(n % 4) == SynthHolder(m % 4) {
      HolderDistinct(n % 4, m % 4);
      SameRemainder(n, m, 4);
      NoSmallMultiple(m - n, 4);
    }
  }

  lemma CityPeriod(n: nat, m: nat)
    requires n < m < n + 8
    ensures SynthCity(n % 8) != SynthCity(m % 8)
  {
    if SynthCity(n % 8) == SynthCity(m % 8) {
      CityDistinct(n % 8, m % 8);
      SameRemainder(n, m, 8);
      NoSmallMultiple(m - n, 8);
    }
  }

  lemma CitizenshipPeriod(n: nat, m: nat)
    requires n < m < n + 3
    ensures SynthCitizenship(n % 3) != SynthCitizenship(m % 3)
  {
    if SynthCitizenship(n % 3) == SynthCitizenship(m % 3) {
      CitizenshipDistinct(n % 3, m % 3);
      SameRemainder(n, m, 3);
      NoSmallMultiple(m - n, 3);
    }
  }

  lemma BirthplacePeriod(n: nat, m: nat)
    requires n < m < n + 4
    ensures SynthBirthplace(n % 4) != SynthBirthplace(m % 4)
  {
    if SynthBirthplace(n % 4) == SynthBirthplace(m % 4) {
      BirthplaceDistinct(n % 4, m % 4);
      SameRemainder(n, m, 4);
      NoSmallMultiple(m - n, 4);
    }
  }

  lemma CodesDistinct(n: nat, m: nat)
    requires n < m
    ensures m < n + 900 ==> Pad(100 + n % 900, 3) != Pad(100 + m % 900, 3)
    ensures m < n + 9000 ==> Pad(1000 + n % 9000, 4) != Pad(1000 + m % 9000, 4)
  {
    if Pad(100 + n % 900, 3) == Pad(100 + m % 900, 3) {
      PadInjective(100 + n % 900, 100 + m % 900, 3, 3);
      SameRemainder(n, m, 900);
    }
    if Pad(1000 + n % 9000, 4) == Pad(1000 + m % 9000, 4) {
      PadInjective(1000 + n % 9000, 1000 + m % 9000, 4, 4);
      SameRemainder(n, m, 9000);
    }
  }

  /** The generators that pick words from lists. */
  predicate UsesWords(kind: Kind) {
    kind in {LastOnly, LastFirst, FullName, CardHolder, Street, Citizenship, Birthplace}
  }

  lemma WordsDistinct(kind: Kind, typ: string, counter: nat, n: nat, m: nat)
    requires UsesWords(kind) && n < m < n + Period(kind).value
    ensures Fake(kind, typ, counter, n) != Fake(kind, typ, counter, m)
  {
    hide Pad, FakePhone, FakeCard, FakeCardExp, FakeDate, FakePassport, FakePassportIntl, FakeSnils, FakePassCode;
    match kind
    case LastOnly => LastOnlyDistinct(n, m);
    case LastFirst => LastFirstDistinct(n, m);
    case FullName =>
      FullNameParts(n);
      FullNameParts(m);
      FullNameDistinct(n, m);
    case CardHolder => HolderPeriod(n, m);
    case Street => CityPeriod(n, m);
    case Citizenship => CitizenshipPeriod(n, m);
    case Birthplace => BirthplacePeriod(n, m);
  }

  lemma NumbersDistinct(kind: Kind, typ: string, counter: nat, n: nat, m: nat)
    requires !UsesWords(kind) && n < m && (Period(kind).Some? ==> m < n + Period(kind).value)
    ensures Fake(kind, typ, counter, n) != Fake(kind, typ, counter, m)
  {
    hide Pad, FakePhone, FakeCard, FakeCardExp, FakeDate, FakePassport, FakePassportIntl, FakeSnils, FakePassCode;
    match kind
    case Phone => PhoneDistinct(n, m);
    case Email => EmailDistinct(n, m);
    case Card => CardDistinct(n, m);
    case CardExp => CardExpDistinct(n, m);
    case Cvv => CodesDistinct(n, m);
    case Pin => CodesDistinct(n, m);
    case Date => DateDistinct(n, m);
    case Passport => PassportDistinct(n, m);
    case PassportIntl => PassportIntlDistinct(n, m);
    case Snils => SnilsDistinct(n, m);
    case Inn => InnDistinct(n, m);
    case PassCode => PassCodeDistinct(n, m);
    case Digits(len) => DigitsDistinct(len, n, m);
    case NoGenerator => assert false;
  }

  /** Any generator: values less than a period apart are different. */
  lemma Distinct(kind: Kind, typ: string, counter: nat, n: nat, m: nat)
    requires n < m && (Period(kind).Some? ==> m < n + Period(kind).value)
    ensures Fake(kind, typ, counter, n) != Fake(kind, typ, counter, m)
  {
    if UsesWords(kind) {
      WordsDistinct(kind, typ, counter, n, m);
    } else {
      NumbersDistinct(kind, typ, counter, n, m);
    }
  }

  // ----- periodicity -----

  lemma PeriodicWords(n: nat, k: nat)
    ensures (n + 10 * k) % 10 == n % 10
    ensures (n + 100 * k) % 10 == n % 10 && ((n + 100 * k) / 10) % 10 == (n / 10) % 10
    ensures (n + 300 * k) % 10 == n % 10 && ((n + 300 * k) / 10) % 10 == (n / 10) % 10 && (n + 300 * k) % 6 == n % 6
  {
    AddMultiple(n, 10, k);
    AddMultiple(n, 10, 10 * k);
    AddMultiple(n / 10, 10, k);
    AddMultiple(n, 10, 30 * k);
    AddMultiple(n / 10, 10, 3 * k);
    AddMultiple(n, 6, 50 * k);
  }

  lemma PhonePeriodic(n: nat, k: nat)
    ensures FakePhone(n + 1000 * k) == FakePhone(n)
  {
    AddMultiple(n, 100, 10 * k);
    AddMultiple(n * 7, 1000, 7 * k);
    AddMultiple(n * 3, 100, 30 * k);
  }

  lemma CardExpPeriodic(n: nat, k: nat)
    ensures FakeCardExp(n + 36 * k) == FakeCardExp(n)
  {
    AddMultiple(n, 12, 3 * k);
    AddMultiple(n, 9, 4 * k);
  }

  lemma DatePeriodic(n: nat, k: nat)
    ensures FakeDate(n + 1092 * k) == FakeDate(n)
  {
    AddMultiple(n, 28, 39 * k);
    AddMultiple(n, 12, 91 * k);
    AddMultiple(n, 39, 28 * k);
  }

  lemma SnilsPeriodic(n: nat, k: nat)
    ensures FakeSnils(n + 1000 * k) == FakeSnils(n)
  {
    AddMultiple(n, 1000, k);
    AddMultiple(n * 3, 1000, 3 * k);
    AddMultiple(n * 7, 1000, 7 * k);
    AddMultiple(n, 100, 10 * k);
  }

  lemma PassCodePeriodic(n: nat, k: nat)
    ensures FakePassCode(n + 1000 * k) == FakePassCode(n)
  {
    AddMultiple(n, 1000, k);
    AddMultiple(n * 5, 1000, 5 * k);
  }

  lemma CardPeriodic(n: nat, k: nat)
    ensures FakeCard(n + 100_000_000_000_000 * k) == FakeCard(n)
  {
    AddMultiple(n, 100_000_000_000_000, k);
  }

  lemma PassportPeriodic(n: nat, k: nat)
    ensures FakePassport(n + 89_000_000 * k) == FakePassport(n)
  {
    AddMultiple(n, 50, 1_780_000 * k);
    AddMultiple(n, 89, 1_000_000 * k);
    AddMultiple(n * 137, 1_000_000, 12_193 * k);
  }

  lemma PassportIntlPeriodic(n: nat, k: nat)
    ensures FakePassportIntl(n + 90_000_000 * k) == FakePassportIntl(n)
  {
    AddMultiple(n, 9, 10_000_000 * k);
    AddMultiple(n * 911, 10_000_000, 8_199 * k);
  }

  lemma InnPeriodic(n: nat, k: nat)
    ensures ((n + 1_000_000_000_000 * k) * 104729) % 1_000_000_000_000 == (n * 104729) % 1_000_000_000_000
  {
    AddMultiple(n * 104729, 1_000_000_000_000, 104729 * k);
  }

  lemma PeriodicDigits(len: nat, n: nat, k: nat)
    ensures ((n + CappedPow10(len) * k) * 7) % CappedPow10(len) == (n * 7) % CappedPow10(len)
  {
    var p := CappedPow10(len);
    assert (n + p * k) * 7 == n * 7 + p * (7 * k);
    AddMultiple(n * 7, p, 7 * k);
  }

  lemma CodesPeriodic(n: nat, k: nat)
    ensures (n + 900 * k) % 900 == n % 900 && (n + 9000 * k) % 9000 == n % 9000
  {
    AddMultiple(n, 900, k);
    AddMultiple(n, 9000, k);
  }

  lemma ShortListsPeriodic(n: nat, k: nat)
    ensures (n + 4 * k) % 4 == n % 4 && (n + 8 * k) % 8 == n % 8 && (n + 3 * k) % 3 == n % 3
  {
    AddMultiple(n, 4, k);
    AddMultiple(n, 8, k);
    AddMultiple(n, 3, k);
  }

  lemma PeriodicNames(kind: Kind, typ: string, counter: nat, n: nat, k: nat, d: nat)
    requires kind in {LastOnly, LastFirst, FullName} && d == Period(kind).value * k
    ensures Fake(kind, typ, counter, n + d) == Fake(kind, typ, counter, n)
  {
    hide Pad, FakePhone, FakeCard, FakeCardExp, FakeDate, FakePassport, FakePassportIntl, FakeSnils, FakePassCode;
    PeriodicWords(n, k);
  }

  lemma PeriodicShortLists(kind: Kind, typ: string, counter: nat, n: nat, k: nat, d: nat)
    requires kind in {CardHolder, Street, Citizenship, Birthplace} && d == Period(kind).value * k
    ensures Fake(kind, typ, counter, n + d) == Fake(kind, typ, counter, n)
  {
    hide Pad, FakePhone, FakeCard, FakeCardExp, FakeDate, FakePassport, FakePassportIntl, FakeSnils, FakePassCode;
    ShortListsPeriodic(n, k);
  }

  lemma PeriodicCardKinds(kind: Kind, typ: string, counter: nat, n: nat, k: nat, d: nat)
    requires kind in {Phone, Card, CardExp} && d == Period(kind).value * k
    ensures Fake(kind, typ, counter, n + d) == Fake(kind, typ, counter, n)
  {
    hide Pad, FakePhone, FakeCard, FakeCardExp, FakeDate, FakePassport, FakePassportIntl, FakeSnils, FakePassCode;
    match kind
    case Phone => PhonePeriodic(n, k);
    case Card => CardPeriodic(n, k);
    case CardExp => CardExpPeriodic(n, k);
  }

  lemma PeriodicCodeKinds(kind: Kind, typ: string, counter: nat, n: nat, k: nat, d: nat)
    requires kind in {Cvv, Pin, Date} && d == Period(kind).value * k
    ensures Fake(kind, typ, counter, n + d) == Fake(kind, typ, counter, n)
  {
    hide Pad, FakePhone, FakeCard, FakeCardExp, FakeDate, FakePassport, FakePassportIntl, FakeSnils, FakePassCode;
    match kind
    case Cvv => CodesPeriodic(n, k);
    case Pin => CodesPeriodic(n, k);
    case Date => DatePeriodic(n, k);
  }

  lemma PeriodicDocumentKinds(kind: Kind, typ: string, counter: nat, n: nat, k: nat, d: nat)
    requires kind in {Passport, PassportIntl, Snils, Inn, PassCode, NoGenerator} || kind.Digits?
    requires d == Period(kind).value * k
    ensures Fake(kind, typ, counter, n + d) == Fake(kind, typ, counter, n)
  {
    hide Pad, FakePhone, FakeCard, FakeCardExp, FakeDate, FakePassport, FakePassportIntl, FakeSnils, FakePassCode;
    match kind
    case Passport => PassportPeriodic(n, k);
    case PassportIntl => PassportIntlPeriodic(n, k);
    case Snils => SnilsPeriodic(n, k);
    case Inn => InnPeriodic(n, k);
    case PassCode => PassCodePeriodic(n, k);
    case Digits(len) => PeriodicDigits(len, n, k);
    case NoGenerator =>
  }

  /** Any generator with a period repeats after it. */
  lemma Periodic(kind: Kind, typ: string, counter: nat, n: nat, k: nat)
    requires Period(kind).Some?
    ensures Fake(kind, typ, counter, n + Period(kind).value * k) == Fake(kind, typ, counter, n)
  {
    hide Fake;
    var d := Period(kind).value * k;
    if kind in {LastOnly, LastFirst, FullName} {
      PeriodicNames(kind, typ, counter, n, k, d);
    } else if UsesWords(kind) {
      PeriodicShortLists(kind, typ, counter, n, k, d);
    } else if kind in {Phone, Card, CardExp} {
      PeriodicCardKinds(kind, typ, counter, n, k, d);
    } else if kind in {Cvv, Pin, Date} {
      PeriodicCodeKinds(kind, typ, counter, n, k, d);
    } else {
      PeriodicDocumentKinds(kind, typ, counter, n, k, d);
    }
  }
}
