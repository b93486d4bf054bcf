/**
 What `synthValue` returns, read off the text: for every type name its shape, and in each
 printed field the number it stands for.
 */
module FakeShapes {
  import opened Decimal
  import opened Luhn
  import opened Runes
  import opened Tokens
  import opened Fakes
  import opened FakePeriods

  /** Positions `from` to `to` are digits that denote `x`. */
  predicate Field(v: string, from: nat, to: nat, x: nat) {
    from < to <= |v| && AllDigits(v[from..to]) && Value(v[from..to]) == x
  }

  predicate PhoneShape(v: string, n: nat) {
    && |v| == 16 && v[..4] == "+7 9" && v[6] == ' ' && v[10] == '-' && v[13] == '-'
    && Field(v, 4, 6, n % 100) && Field(v, 7, 10, (7 * n) % 1000)
    && Field(v, 11, 13, n % 100) && Field(v, 14, 16, (3 * n) % 100)
  }

  predicate EmailShape(v: string, n: nat) {
    |v| > 16 && v[..4] == "user" && v[|v| - 12..] == "@example.com" && Field(v, 4, |v| - 12, n)
  }

  /** A valid card number in groups of four: a 4, fourteen digits of the number, the check digit. */
  predicate CardShape(v: string, n: nat) {
    && ValidCard(v) && |v| == 19 && v[0] == '4' && v[4] == ' ' && v[9] == ' ' && v[14] == ' '
    && var number := v[1..4] + v[5..9] + v[10..14] + v[15..18];
      AllDigits(number) && Value(number) == n % 100_000_000_000_000
  }

  predicate CardExpShape(v: string, n: nat) {
    |v| == 5 && v[2] == '/' && Field(v, 0, 2, n % 12 + 1) && Field(v, 3, 5, 30 + n % 9)
  }

  predicate DateShape(v: string, n: nat) {
    && |v| == 10 && v[2] == '.' && v[5..8] == ".19"
    && Field(v, 0, 2, n % 28 + 1) && Field(v, 3, 5, n % 12 + 1) && Field(v, 8, 10, 60 + n % 39)
  }

  predicate PassportShape(v: string, n: nat) {
    && |v| == 12 && v[2] == ' ' && v[5] == ' '
    && Field(v, 0, 2, 40 + n % 50) && Field(v, 3, 5, 10 + n % 89) && Field(v, 6, 12, (137 * n) % 1_000_000)
  }

  predicate PassportIntlShape(v: string, n: nat) {
    |v| == 10 && v[2] == ' ' && Field(v, 0, 2, 70 + n % 9) && Field(v, 3, 10, (911 * n) % 10_000_000)
  }

  predicate SnilsShape(v: string, n: nat) {
    && |v| == 14 && v[3] == '-' && v[7] == '-' && v[11] == ' '
    && Field(v, 0, 3, n % 1000) && Field(v, 4, 7, (3 * n) % 1000)
    && Field(v, 8, 11, (7 * n) % 1000) && Field(v, 12, 14, n % 100)
  }

  predicate PassCodeShape(v: string, n: nat) {
    |v| == 7 && v[3] == '-' && Field(v, 0, 3, n % 1000) && Field(v, 4, 7, (5 * n) % 1000)
  }

  /** As many words as the original has, at least one and at most three. */
  predicate NameShape(v: string, original: string, n: nat) {
    var last := ["Смирнов", "Кузнецов", "Попов", "Соколов", "Лебедев",
                 "Козлов", "Новиков", "Морозов", "Волков", "Зайцев"][n % 10];
    var first := ["Пётр", "Иван", "Сергей", "Алексей", "Дмитрий",
                  "Николай", "Андрей", "Михаил", "Егор", "Роман"][(n / 10) % 10];
    var patr := ["Петрович", "Иванович", "Сергеевич", "Алексеевич", "Дмитриевич", "Николаевич"][n % 6];
    if FieldCount(original) <= 1 then v == last && FieldCount(v) == 1
    else if FieldCount(original) == 2 then v == last + " " + first && FieldCount(v) == 2
    else v == last + " " + first + " " + patr && FieldCount(v) == 3
  }

  /** A number of as many digits as the original has, or a street. */
  predicate AddressShape(v: string, original: string, n: nat) {
    if original != [] && AllDigits(original)
    then
      |v| == |original|
      && Field(v, 0, |v|, (7 * n) % (if |original| < 9 then Pow10(|original|) else 1_000_000_000))
    else
      v == ["Кленовая", "Садовая", "Гагарина", "Мира", "Заречная", "Полевая", "Лесная", "Центральная"][n % 8]
  }

  /** `[TYPE_N]` */
  predicate PlaceholderShaped(v: string, typ: string, counter: nat) {
    && |v| > |typ| + 3 && v[0] == '[' && v[1..|typ| + 1] == typ && v[|typ| + 1] == '_' && v[|v| - 1] == ']'
    && Field(v, |typ| + 2, |v| - 1, counter)
  }

  const GENERATED: set<string> := {
    "FIO", "PHONE", "EMAIL", "CARD", "CARD_EXP", "CVV", "PIN", "DATE", "PASSPORT", "PASSPORT_INTL", "SNILS", "INN",
    "PASS_CODE", "CARD_HOLDER", "ADDRESS", "CITIZENSHIP", "BIRTHPLACE"}

  /** What the value for number `n` looks like, type by type. */
  predicate Shaped(typ: string, original: string, counter: nat, n: nat, v: string) {
    && (typ == "FIO" ==> NameShape(v, original, n))
    && (typ == "PHONE" ==> PhoneShape(v, n))
    && (typ == "EMAIL" ==> EmailShape(v, n))
    && (typ == "CARD" ==> CardShape(v, n))
    && (typ == "CARD_EXP" ==> CardExpShape(v, n))
    && (typ == "CVV" ==> |v| == 3 && Field(v, 0, 3, 100 + n % 900))
    && (typ == "PIN" ==> |v| == 4 && Field(v, 0, 4, 1000 + n % 9000))
    && (typ == "DATE" ==> DateShape(v, n))
    && (typ == "PASSPORT" ==> PassportShape(v, n))
    && (typ == "PASSPORT_INTL" ==> PassportIntlShape(v, n))
    && (typ == "SNILS" ==> SnilsShape(v, n))
    && (typ == "INN" ==> |v| == 12 && Field(v, 0, 12, (104729 * n) % 1_000_000_000_000))
    && (typ == "PASS_CODE" ==> PassCodeShape(v, n))
    && (typ == "CARD_HOLDER" ==> v == ["IVAN PETROV", "PETR SMIRNOV", "SERGEI VOLKOV", "ROMAN KOZLOV"][n % 4])
    && (typ == "ADDRESS" ==> AddressShape(v, original, n))
    && (typ == "CITIZENSHIP" ==> v == ["РФ", "России", "Российской Федерации"][n % 3])
    && (typ == "BIRTHPLACE" ==> v == ["Тула", "Рязань", "Калуга", "Тверь"][n % 4])
    && (typ !in GENERATED ==> PlaceholderShaped(v, typ, counter))
  }

  // ----- reading the fields back -----

  /** A printed field holds its number. */
  lemma FieldIs(v: string, from: nat, to: nat, x: nat)
    requires from < to <= |v| && v[from..to] == Pad(x, to - from)
    ensures Field(v, from, to, x)
  {
    PadRoundTrip(x, to - from);
  }

  lemma PhoneShaped(n: nat)
    ensures PhoneShape(FakePhone(n), n)
  {
    hide Pad, FakePhone, Value, Field;
    PhoneFields(n);
    FieldIs(FakePhone(n), 4, 6, n % 100);
    FieldIs(FakePhone(n), 7, 10, (n * 7) % 1000);
    FieldIs(FakePhone(n), 11, 13, n % 100);
    FieldIs(FakePhone(n), 14, 16, (n * 3) % 100);
  }

  lemma EmailShaped(n: nat)
    ensures EmailShape("user" + Itoa(n) + "@example.com", n)
  {
    hide Pad;
    var v := "user" + Itoa(n) + "@example.com";
    assert v[4..|v| - 12] == Itoa(n) && v[|v| - 12..] == "@example.com" && v[..4] == "user";
    PadRoundTrip(n, 1);
  }

  lemma CardShaped(n: nat)
    ensures CardShape(FakeCard(n), n)
  {
    hide ValidCard, Pad, Value, CardFull;
    SynthCardValid(n);
    var v, full, base := FakeCard(n), CardFull(n), Pad(n % 100_000_000_000_000, 14);
    CardParts(n);
    Grouped(full[0..4], full[4..8], full[8..12], full[12..16]);
    assert full[12..16][..3] == full[12..15] && full[0..4][1..] == full[1..4];
    assert v[1..4] + v[5..9] + v[10..14] + v[15..18] == full[1..15] == base;
    PadRoundTrip(n % 100_000_000_000_000, 14);
  }

  /** Four groups, read back without the first and the last digit. */
  lemma Grouped(a: string, b: string, c: string, d: string)
    requires |a| == |b| == |c| == |d| == 4
    ensures var v := a + " " + b + " " + c + " " + d;
      && |v| == 19 && v[4] == ' ' && v[9] == ' ' && v[14] == ' ' && v[0] == a[0]
      && v[1..4] == a[1..] && v[5..9] == b && v[10..14] == c && v[15..18] == d[..3]
  {
  }

  lemma CardParts(n: nat)
    ensures CardFull(n)[0] == '4' && CardFull(n)[1..15] == Pad(n % 100_000_000_000_000, 14)
  {
    hide Pad;
    assert CardFull(n)[..15] == CardBase(n);
    assert CardBase(n)[1..] == Pad(n % 100_000_000_000_000, 14);
  }

  lemma CardExpShaped(n: nat)
    ensures CardExpShape(FakeCardExp(n), n)
  {
    hide Pad, FakeCardExp, Value, Field;
    CardExpFields(n);
    FieldIs(FakeCardExp(n), 0, 2, n % 12 + 1);
    FieldIs(FakeCardExp(n), 3, 5, 30 + n % 9);
  }

  lemma DateShaped(n: nat)
    ensures DateShape(FakeDate(n), n)
  {
    hide Pad, FakeDate, Value, Field;
    DateFields(n);
    FieldIs(FakeDate(n), 0, 2, n % 28 + 1);
    FieldIs(FakeDate(n), 3, 5, n % 12 + 1);
    FieldIs(FakeDate(n), 8, 10, 60 + n % 39);
  }

  lemma PassportShaped(n: nat)
    ensures PassportShape(FakePassport(n), n)
  {
    hide Pad, FakePassport, Value, Field;
    PassportFields(n);
    FieldIs(FakePassport(n), 0, 2, 40 + n % 50);
    FieldIs(FakePassport(n), 3, 5, 10 + n % 89);
    FieldIs(FakePassport(n), 6, 12, (n * 137) % 1_000_000);
  }

  lemma PassportIntlShaped(n: nat)
    ensures PassportIntlShape(FakePassportIntl(n), n)
  {
    hide Pad, FakePassportIntl, Value, Field;
    PassportIntlFields(n);
    FieldIs(FakePassportIntl(n), 0, 2, 70 + n % 9);
    FieldIs(FakePassportIntl(n), 3, 10, (n * 911) % 10_000_000);
  }

  lemma SnilsShaped(n: nat)
    ensures SnilsShape(FakeSnils(n), n)
  {
    hide Pad, FakeSnils, Value, Field;
    SnilsFields(n);
    FieldIs(FakeSnils(n), 0, 3, n % 1000);
    FieldIs(FakeSnils(n), 4, 7, (n * 3) % 1000);
    FieldIs(FakeSnils(n), 8, 11, (n * 7) % 1000);
    FieldIs(FakeSnils(n), 12, 14, n % 100);
  }

  lemma PassCodeShaped(n: nat)
    ensures PassCodeShape(FakePassCode(n), n)
  {
    hide Pad, FakePassCode, Value, Field;
    PassCodeFields(n);
    FieldIs(FakePassCode(n), 0, 3, n % 1000);
    FieldIs(FakePassCode(n), 4, 7, (n * 5) % 1000);
  }

  /** A number printed in its own width. */
  lemma NumberShaped(x: nat, width: nat)
    requires width >= 1 && x < Pow10(width)
    ensures |Pad(x, width)| == width && Field(Pad(x, width), 0, width, x)
  {
    hide Pad, Value, Field;
    PadWidth(x, width);
    assert Pad(x, width)[0..width] == Pad(x, width);
    FieldIs(Pad(x, width), 0, width, x);
  }

  lemma CodesShaped(n: nat)
    ensures var v := Pad(100 + n % 900, 3); |v| == 3 && Field(v, 0, 3, 100 + n % 900)
    ensures var v := Pad(1000 + n % 9000, 4); |v| == 4 && Field(v, 0, 4, 1000 + n % 9000)
    ensures var v := Pad((n * 104729) % 1_000_000_000_000, 12);
      |v| == 12 && Field(v, 0, 12, (104729 * n) % 1_000_000_000_000)
  {
    hide Pad, Value, Field;
    assert Pow10(3) == 1000 && Pow10(4) == 10_000 && Pow10(12) == 1_000_000_000_000;
    NumberShaped(100 + n % 900, 3);
    NumberShaped(1000 + n % 9000, 4);
    NumberShaped((n * 104729) % 1_000_000_000_000, 12);
  }

  lemma NumberAddressShaped(original: string, n: nat)
    requires original != [] && AllDigits(original)
    ensures AddressShape(Pad((n * 7) % CappedPow10(|original|), |original|), original, n)
  {
    hide Pad, Value, Field, Pow10, AllDigits;
    var len := |original|;
    assert Pow10(9) == 1_000_000_000 by {
      NinthPower();
    }
    Pow10Grows(if len < 9 then len else 9, len);
    NumberShaped((n * 7) % CappedPow10(len), len);
  }

  lemma NinthPower()
    ensures Pow10(9) == 1_000_000_000
  {
  }

  lemma StreetShaped(original: string, n: nat)
    requires original == [] || !AllDigits(original)
    ensures AddressShape(SynthCity(n % 8), original, n)
  {
    hide AllDigits;
  }

  lemma ShortListsShaped(n: nat)
    ensures SynthHolder(n % 4) == ["IVAN PETROV", "PETR SMIRNOV", "SERGEI VOLKOV", "ROMAN KOZLOV"][n % 4]
    ensures SynthCitizenship(n % 3) == ["РФ", "России", "Российской Федерации"][n % 3]
    ensures SynthBirthplace(n % 4) == ["Тула", "Рязань", "Калуга", "Тверь"][n % 4]
  {
  }

  lemma PlaceholderIsShaped(typ: string, counter: nat)
    ensures PlaceholderShaped(Placeholder(typ, counter), typ, counter)
  {
    hide Pad, Value;
    PlaceholderShape(typ, counter);
    PadRoundTrip(counter, 1);
    assert Placeholder(typ, counter)[0] == '[' && Placeholder(typ, counter)[|typ| + 3 + |Itoa(counter)| - 1] == ']';
  }

  // ----- names -----

  lemma NameWordsAreFields(i: nat, j: nat, k: nat)
    requires i < 10 && j < 10 && k < 6
    ensures FieldCount(SynthLast(i)) == 1 && FieldCount(SynthFirst(j)) == 1 && FieldCount(SynthPatr(k)) == 1
  {
    hide FieldCount;
    LastHasNoSpace(i);
    FirstHasNoSpace(j);
    PatrHasNoSpace(k);
    OneField(SynthLast(i));
    OneField(SynthFirst(j));
    OneField(SynthPatr(k));
  }

  predicate Cyrillic(c: char) {
    'А' <= c <= 'я'  || c == 'ё'
  }

  lemma CyrillicNoSpace(c: char)
    ensures Cyrillic(c) ==> !IsSpace(c)
  {
  }

  predicate AllCyrillic(s: string) {
    s != [] && forall i :: 0 <= i < |s| ==> Cyrillic(s[i])
  }

  lemma NoSpaceIn(s: string)
    requires AllCyrillic(s)
    ensures s != [] && forall i :: 0 <= i < |s| ==> !IsSpace(s[i])
  {
    hide IsSpace, Cyrillic;
    forall i | 0 <= i < |s| ensures !IsSpace(s[i]) {
      CyrillicNoSpace(s[i]);
    }
  }

  lemma LastHasNoSpace(i: nat)
    requires i < 10
    ensures SynthLast(i) != [] && forall k :: 0 <= k < |SynthLast(i)| ==> !IsSpace(SynthLast(i)[k])
  {
    hide IsSpace;
    assert AllCyrillic(SynthLast(i));
    NoSpaceIn(SynthLast(i));
  }

  lemma FirstHasNoSpace(i: nat)
    requires i < 10
    ensures SynthFirst(i) != [] && forall k :: 0 <= k < |SynthFirst(i)| ==> !IsSpace(SynthFirst(i)[k])
  {
    hide IsSpace;
    assert AllCyrillic(SynthFirst(i));
    NoSpaceIn(SynthFirst(i));
  }

  lemma PatrHasNoSpace(i: nat)
    requires i < 6
    ensures SynthPatr(i) != [] && forall k :: 0 <= k < |SynthPatr(i)| ==> !IsSpace(SynthPatr(i)[k])
  {
    hide IsSpace;
    assert AllCyrillic(SynthPatr(i));
    NoSpaceIn(SynthPatr(i));
  }

  lemma NameLists(n: nat)
    ensures SynthLast(n % 10) == ["Смирнов", "Кузнецов", "Попов", "Соколов", "Лебедев",
                                  "Козлов", "Новиков", "Морозов", "Волков", "Зайцев"][n % 10]
    ensures SynthFirst((n / 10) % 10) == ["Пётр", "Иван", "Сергей", "Алексей", "Дмитрий",
                                          "Николай", "Андрей", "Михаил", "Егор", "Роман"][(n / 10) % 10]
    ensures SynthPatr(n % 6) ==
      ["Петрович", "Иванович", "Сергеевич", "Алексеевич", "Дмитриевич", "Николаевич"][n % 6]
  {
  }

  lemma NameFields(n: nat)
    ensures var last, first, patr := SynthLast(n % 10), SynthFirst((n / 10) % 10), SynthPatr(n % 6);
      && FieldCount(last) == 1 && FieldCount(last + " " + first) == 2
      && FieldCount(last + " " + first + " " + patr) == 3
  {
    hide SynthLast, SynthFirst, SynthPatr, FieldCount, IsSpace;
    var last, first, patr := SynthLast(n % 10), SynthFirst((n / 10) % 10), SynthPatr(n % 6);
    NameWordsAreFields(n % 10, (n / 10) % 10, n % 6);
    BlankIsSpace();
    FieldsAdd(last, " ", first);
    FieldsAdd(last + " " + first, " ", patr);
  }

  lemma BlankIsSpace()
    ensures AllSpaces(" ")
  {
  }

  lemma NameShaped(original: string, n: nat, counter: nat)
    ensures NameShape(Fake(KindOf("FIO", original), "FIO", counter, n), original, n)
  {
    hide SynthLast, SynthFirst, SynthPatr, FieldCount;
    NameLists(n);
    NameFields(n);
  }

  // ----- all types -----

  lemma ListTypesShaped(typ: string, original: string, counter: nat, n: nat)
    requires typ in {"CARD_HOLDER", "ADDRESS", "CITIZENSHIP", "BIRTHPLACE"}
    ensures Shaped(typ, original, counter, n, Fake(KindOf(typ, original), typ, counter, n))
  {
    hide NameShape, PhoneShape, EmailShape, CardShape, CardExpShape, DateShape, PassportShape, PassportIntlShape,
      SnilsShape, PassCodeShape, AddressShape, PlaceholderShaped, Field, Pad, AllDigits, CappedPow10;
    hide SynthHolder, SynthCity, SynthCitizenship, SynthBirthplace;
    ShortListsShaped(n);
    if original != [] && AllDigits(original) {
      NumberAddressShaped(original, n);
    } else {
      StreetShaped(original, n);
    }
  }

  lemma NumberTypesShaped(typ: string, original: string, counter: nat, n: nat)
    requires typ in {"PHONE", "EMAIL", "CARD", "CARD_EXP", "CVV", "PIN"}
    ensures Shaped(typ, original, counter, n, Fake(KindOf(typ, original), typ, counter, n))
  {
    hide NameShape, PhoneShape, EmailShape, CardShape, CardExpShape, DateShape, PassportShape, PassportIntlShape,
      SnilsShape, PassCodeShape, AddressShape, PlaceholderShaped, Field, Pad, AllDigits, Itoa;
    hide FakePhone, FakeCard, FakeCardExp;
    PhoneShaped(n);
    EmailShaped(n);
    CardShaped(n);
    CardExpShaped(n);
    CodesShaped(n);
  }

  lemma DocumentTypesShaped(typ: string, original: string, counter: nat, n: nat)
    requires typ in {"DATE", "PASSPORT", "PASSPORT_INTL", "SNILS", "INN", "PASS_CODE"}
    ensures Shaped(typ, original, counter, n, Fake(KindOf(typ, original), typ, counter, n))
  {
    hide NameShape, PhoneShape, EmailShape, CardShape, CardExpShape, DateShape, PassportShape, PassportIntlShape,
      SnilsShape, PassCodeShape, AddressShape, PlaceholderShaped, Field, Pad, AllDigits;
    hide FakeDate, FakePassport, FakePassportIntl, FakeSnils, FakePassCode;
    DateShaped(n);
    PassportShaped(n);
    PassportIntlShaped(n);
    SnilsShaped(n);
    CodesShaped(n);
    PassCodeShaped(n);
  }

  lemma OtherTypesShaped(typ: string, original: string, counter: nat, n: nat)
    requires typ !in GENERATED || typ == "FIO"
    ensures Shaped(typ, original, counter, n, Fake(KindOf(typ, original), typ, counter, n))
  {
    hide NameShape, PhoneShape, EmailShape, CardShape, CardExpShape, DateShape, PassportShape, PassportIntlShape,
      SnilsShape, PassCodeShape, AddressShape, PlaceholderShaped, Field, Pad, AllDigits, Placeholder;
    if typ == "FIO" {
      NameShaped(original, n, counter);
    } else {
      PlaceholderIsShaped(typ, counter);
    }
  }

  /** The value `synthValue` tries for number `n` has the shape of its type, whatever the type's name. */
  lemma FakeIsShaped(typ: string, original: string, counter: nat, n: nat)
    ensures Shaped(typ, original, counter, n, Fake(KindOf(typ, original), typ, counter, n))
  {
    hide Shaped, KindOf, Fake;
    if typ in {"CARD_HOLDER", "ADDRESS", "CITIZENSHIP", "BIRTHPLACE"} {
      ListTypesShaped(typ, original, counter, n);
    } else if typ in {"PHONE", "EMAIL", "CARD", "CARD_EXP", "CVV", "PIN"} {
      NumberTypesShaped(typ, original, counter, n);
    } else if typ in {"DATE", "PASSPORT", "PASSPORT_INTL", "SNILS", "INN", "PASS_CODE"} {
      DocumentTypesShaped(typ, original, counter, n);
    } else {
      OtherTypesShaped(typ, original, counter, n);
    }
  }
}
