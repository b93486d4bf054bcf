/**
 The synthetic values of internal/service/service.go: `synthValue` and `synthCard`.
 Each generator repeats after a fixed period and gives pairwise distinct values within
 it, which decides when the unbounded retry loop of `synthValue` stops.
 */
module Fakes {
  import opened Common
  import opened Decimal
  import opened Luhn
  import opened Runes
  import opened Tokens

  // ----- word lists -----

  function SynthLast(i: nat): string
    requires i < 10
  {
    match i
    case 0 => "Смирнов" case 1 => "Кузнецов" case 2 => "Попов" case 3 => "Соколов" case 4 => "Лебедев"
    case 5 => "Козлов" case 6 => "Новиков" case 7 => "Морозов" case 8 => "Волков" case _ => "Зайцев"
  }

  function SynthFirst(i: nat): string
    requires i < 10
  {
    match i
    case 0 => "Пётр" case 1 => "Иван" case 2 => "Сергей" case 3 => "Алексей" case 4 => "Дмитрий"
    case 5 => "Николай" case 6 => "Андрей" case 7 => "Михаил" case 8 => "Егор" case _ => "Роман"
  }

  function SynthPatr(i: nat): string
    requires i < 6
  {
    match i
    case 0 => "Петрович" case 1 => "Иванович" case 2 => "Сергеевич"
    case 3 => "Алексеевич" case 4 => "Дмитриевич" case _ => "Николаевич"
  }

  function SynthCity(i: nat): string
    requires i < 8
  {
    match i
    case 0 => "Кленовая" case 1 => "Садовая" case 2 => "Гагарина" case 3 => "Мира"
    case 4 => "Заречная" case 5 => "Полевая" case 6 => "Лесная" case _ => "Центральная"
  }

  function SynthHolder(i: nat): string
    requires i < 4
  {
    match i
    case 0 => "IVAN PETROV" case 1 => "PETR SMIRNOV" case 2 => "SERGEI VOLKOV" case _ => "ROMAN KOZLOV"
  }

  function SynthCitizenship(i: nat): string
    requires i < 3
  {
    match i
    case 0 => "РФ" case 1 => "России" case _ => "Российской Федерации"
  }

  function SynthBirthplace(i: nat): string
    requires i < 4
  {
    match i
    case 0 => "Тула" case 1 => "Рязань" case 2 => "Калуга" case _ => "Тверь"
  }

  // ----- the generators -----

  /** Which generator serves a value; `NoGenerator` is the reversible placeholder without one. */
  datatype Kind =
    | LastOnly | LastFirst | FullName
    | Phone | Email | Card | CardExp | Cvv | Pin | Date | Passport | PassportIntl | Snils | Inn | PassCode
    | CardHolder | Digits(len: nat) | Street | Citizenship | Birthplace | NoGenerator

  /** The `switch` of `synthValue`, with its inner choices by the original text. */
  function KindOf(typ: string, original: string): Kind {
    if typ == "FIO" then
      var words := FieldCount(original);
      if words <= 1 then LastOnly else if words == 2 then LastFirst else FullName
    else if typ == "PHONE" then Phone
    else if typ == "EMAIL" then Email
    else if typ == "CARD" then Card
    else if typ == "CARD_EXP" then CardExp
    else if typ == "CVV" then Cvv
    else if typ == "PIN" then Pin
    else if typ == "DATE" then Date
    else if typ == "PASSPORT" then Passport
    else if typ == "PASSPORT_INTL" then PassportIntl
    else if typ == "SNILS" then Snils
    else if typ == "INN" then Inn
    else if typ == "PASS_CODE" then PassCode
    else if typ == "CARD_HOLDER" then CardHolder
    else if typ == "ADDRESS" then (if original != [] && AllDigits(original) then Digits(|original|) else Street)
    else if typ == "CITIZENSHIP" then Citizenship
    else if typ == "BIRTHPLACE" then Birthplace
    else NoGenerator
  }

  /** `pow10`, capped at nine digits. */
  function CappedPow10(len: nat): (p: nat)
    ensures p > 0
  {
    Pow10(if len < 9 then len else 9)
  }

  function FakePhone(n: nat): string {
    "+7 9" + Pad(n % 100, 2) + " " + Pad((n * 7) % 1000, 3) + "-" + Pad(n % 100, 2) + "-" + Pad((n * 3) % 100, 2)
  }

  function FakeCardExp(n: nat): string {
    Pad(n % 12 + 1, 2) + "/" + Pad(30 + n % 9, 2)
  }

  function FakeDate(n: nat): string {
    Pad(n % 28 + 1, 2) + "." + Pad(n % 12 + 1, 2) + ".19" + Pad(60 + n % 39, 2)
  }

  function FakePassport(n: nat): string {
    Pad(40 + n % 50, 2) + " " + Pad(10 + n % 89, 2) + " " + Pad((n * 137) % 1_000_000, 6)
  }

  function FakePassportIntl(n: nat): string {
    Pad(70 + n % 9, 2) + " " + Pad((n * 911) % 10_000_000, 7)
  }

  function FakeSnils(n: nat): string {
    Pad(n % 1000, 3) + "-" + Pad((n * 3) % 1000, 3) + "-" + Pad((n * 7) % 1000, 3) + " " + Pad(n % 100, 2)
  }

  function FakePassCode(n: nat): string {
    Pad(n % 1000, 3) + "-" + Pad((n * 5) % 1000, 3)
  }

  /** The fifteen digits `synthCard` starts from. */
  function CardBase(n: nat): (s: string)
    ensures AllDigits(s) && |s| == 15
  {
    assert Pow10(14) == 100_000_000_000_000;
    PadWidth(n % 100_000_000_000_000, 14);
    "4" + Pad(n % 100_000_000_000_000, 14)
  }

  function CardFull(n: nat): (s: string)
    ensures AllDigits(s) && |s| == 16
  {
    CardBase(n) + Itoa(CheckDigitOf(Stripped(CardBase(n))))
  }

  /** `synthCard`: the base, its Luhn check digit, in groups of four. */
  function FakeCard(n: nat): string {
    var full := CardFull(n);
    full[0..4] + " " + full[4..8] + " " + full[8..12] + " " + full[12..16]
  }

  /** The value `synthValue` tries for `n`. */
  function Fake(kind: Kind, typ: string, counter: nat, n: nat): string {
    match kind
    case LastOnly => SynthLast(n % 10)
    case LastFirst => SynthLast(n % 10) + " " + SynthFirst((n / 10) % 10)
    case FullName => SynthLast(n % 10) + " " + SynthFirst((n / 10) % 10) + " " + SynthPatr(n % 6)
    case Phone => FakePhone(n)
    case Email => "user" + Itoa(n) + "@example.com"
    case Card => FakeCard(n)
    case CardExp => FakeCardExp(n)
    case Cvv => Pad(100 + n % 900, 3)
    case Pin => Pad(1000 + n % 9000, 4)
    case Date => FakeDate(n)
    case Passport => FakePassport(n)
    case PassportIntl => FakePassportIntl(n)
    case Snils => FakeSnils(n)
    case Inn => Pad((n * 104729) % 1_000_000_000_000, 12)
    case PassCode => FakePassCode(n)
    case CardHolder => SynthHolder(n % 4)
    case Digits(len) => Pad((n * 7) % CappedPow10(len), len)
    case Street => SynthCity(n % 8)
    case Citizenship => SynthCitizenship(n % 3)
    case Birthplace => SynthBirthplace(n % 4)
    case NoGenerator => Placeholder(typ, counter)
  }

  /** After how many values a generator repeats; e-mail addresses never do. */
  function Period(kind: Kind): (p: Option<nat>)
    ensures p.Some? ==> p.value > 0
  {
    match kind
    case LastOnly => Some(10)
    case LastFirst => Some(100)
    case FullName => Some(300)
    case Phone => Some(1000)
    case Email => None
    case Card => Some(100_000_000_000_000)
    case CardExp => Some(36)
    case Cvv => Some(900)
    case Pin => Some(9000)
    case Date => Some(1092)
    case Passport => Some(89_000_000)
    case PassportIntl => Some(90_000_000)
    case Snils => Some(1000)
    case Inn => Some(1_000_000_000_000)
    case PassCode => Some(1000)
    case CardHolder => Some(4)
    case Digits(len) => Some(CappedPow10(len))
    case Street => Some(8)
    case Citizenship => Some(3)
    case Birthplace => Some(4)
    case NoGenerator => Some(1)
  }

  // ----- cards -----

  lemma StrippedSpaced(s: string, t: string)
    ensures Stripped(s + " " + t) == Stripped(s) + Stripped(t)
  {
    StrippedSnoc(s, ' ');
    StrippedConcat(s + [' '], t);
  }

  lemma StrippedGroups(a: string, b: string, d: string, e: string)
    ensures Stripped(a + " " + b + " " + d + " " + e) == Stripped(a + b + d + e)
  {
    var x := a + " " + b;
    var y := x + " " + d;
    StrippedSpaced(a, b);
    StrippedSpaced(x, d);
    StrippedSpaced(y, e);
    StrippedConcat(a, b);
    StrippedConcat(a + b, d);
    StrippedConcat(a + b + d, e);
  }

  lemma OneDigitStripped(c: nat)
    requires c < 10
    ensures Stripped(Itoa(c)) == [c]
  {
    assert Itoa(c) == [DigitChar(c)];
    StrippedAllDigits(Itoa(c));
  }

  lemma CardDigits(n: nat)
    ensures Stripped(FakeCard(n)) == Stripped(CardFull(n))
    ensures Stripped(CardFull(n)) == Stripped(CardBase(n)) + [CheckDigitOf(Stripped(CardBase(n)))]
  {
    var f, c := CardFull(n), CheckDigitOf(Stripped(CardBase(n)));
    hide Stripped, Pad;
    StrippedConcat(CardBase(n), Itoa(c));
    OneDigitStripped(c);
    StrippedGroups(f[0..4], f[4..8], f[8..12], f[12..16]);
    assert f == f[0..4] + f[4..8] + f[8..12] + f[12..16];
  }

  lemma CardChars(n: nat)
    ensures forall i :: 0 <= i < |FakeCard(n)| ==> CardChar(FakeCard(n)[i])
  {
    var f := CardFull(n);
    assert forall i :: 0 <= i < |f| ==> IsDigit(f[i]);
  }

  /** Every generated card number is a valid card number. */
  lemma SynthCardValid(n: nat)
    ensures ValidCard(FakeCard(n))
  {
    CardDigits(n);
    CardChars(n);
    StrippedAllDigits(CardBase(n));
    CheckDigitUnique(Stripped(CardBase(n)), CheckDigitOf(Stripped(CardBase(n))));
  }

  lemma SameDigitsSameText(s: string, t: string)
    requires AllDigits(s) && AllDigits(t) && Stripped(s) == Stripped(t)
    ensures s == t
  {
    StrippedAllDigits(s);
    StrippedAllDigits(t);
    forall i | 0 <= i < |s| ensures s[i] == t[i] {
      assert DigitValue(s[i]) == Stripped(s)[i] == DigitValue(t[i]);
    }
  }

  /** The fourteen digits of the number are read back from the base. */
  lemma BaseDigits(n: nat)
    ensures CardBase(n)[1..] == Pad(n % 100_000_000_000_000, 14)
    ensures |Stripped(FakeCard(n))| == 16 && Stripped(CardBase(n)) == Stripped(FakeCard(n))[..15]
  {
    hide Pad, Stripped;
    CardDigits(n);
    StrippedAllDigits(CardBase(n));
  }

  lemma CardDistinct(n: nat, m: nat)
    requires n < m < n + 100_000_000_000_000
    ensures FakeCard(n) != FakeCard(m)
  {
    hide Pad, Stripped, FakeCard, CardBase;
    if FakeCard(n) == FakeCard(m) {
      BaseDigits(n);
      BaseDigits(m);
      SameDigitsSameText(CardBase(n), CardBase(m));
      PadInjective(n % 100_000_000_000_000, m % 100_000_000_000_000, 14, 14);
      assert false;
    }
  }
}
