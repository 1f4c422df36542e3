/** An extracted resume: its normalisation, and the rows it becomes. */
module Resume {
  import opened Base
  import opened Text
  import opened Skills

  datatype Kind = Employment | Education | Certification | Project

  /** An entry of any of the four histories: `title` is what the entry may not lack (employer, institution,
      certificate or project name), `texts` its other texts. */
  datatype Item = Item(
    title: string, texts: seq<string>, startDate: string, endDate: string, startYear: int, endYear: int,
    isCurrent: bool, technologies: seq<string>)

  datatype Language = Language(name: string, framework: string, level: string)

  datatype Extraction = Extraction(
    name: string, email: string, phone: string, location: string, currentTitle: string, summary: string,
    totalExperience: string, relevantExperience: string, skills: seq<string>,
    items: map<Kind, seq<Item>>, languages: seq<Language>)

  const MIN_YEAR := 1900
  const MAX_YEAR := 2200
  const UNSPECIFIED := "unspecified"

  // ---- Years and dates ----

  predicate YearValid(y: int) { y == 0 || MIN_YEAR <= y <= MAX_YEAR }

  predicate YearsValid(item: Item) {
    YearValid(item.startYear) && YearValid(item.endYear)
    && (item.startYear != 0 && item.endYear != 0 ==> item.startYear <= item.endYear)
  }

  function ItemsOf(items: map<Kind, seq<Item>>, kind: Kind): seq<Item> { if kind in items then items[kind] else [] }

  predicate AllYearsValid(items: map<Kind, seq<Item>>) {
    forall kind, i :: kind in items && 0 <= i < |items[kind]| ==> YearsValid(items[kind][i])
  }

  const MAX_INT: int := 0x7FFF_FFFF_FFFF_FFFF

  /** The year stored for a date: the explicit one, or the first four characters where they are a year. */
  function YearOf(date: string, explicit: int): Option<int> {
    if explicit != 0 then Some(explicit)
    else
      var v := Trim(date);
      var parsed := if |v| >= 4 then Atoi(v[..4], MAX_INT) else None;
      if parsed.Some? && MIN_YEAR <= parsed.value <= MAX_YEAR then parsed else None
  }

  predicate AllDigits(s: string) { Digits(s) == |s| }

  function ToNumber(s: string): nat { if AllDigits(s) then Number(s) else 0 }

  predicate IsLeap(y: int) { y % 4 == 0 && (y % 100 != 0 || y % 400 == 0) }

  function DaysIn(y: int, m: int): int {
    if m == 2 then (if IsLeap(y) then 29 else 28) else if m in {4, 6, 9, 11} then 30 else 31
  }

  predicate IsYear(v: string) { |v| == 4 && AllDigits(v) }

  predicate IsMonth(v: string) { |v| == 7 && IsYear(v[..4]) && v[4] == '-' && AllDigits(v[5..]) && 1 <= ToNumber(v[5..]) <= 12 }

  predicate IsDay(v: string) {
    |v| == 10 && IsMonth(v[..7]) && v[7] == '-' && AllDigits(v[8..]) && 1 <= ToNumber(v[8..]) <= DaysIn(ToNumber(v[..4]), ToNumber(v[5..7]))
  }

  /** The date column: null for a blank or a partial date, which the year column keeps; None where the text is
      no date at all. */
  function DateOf(text: string): Option<Option<string>> {
    var v := Trim(text);
    if v == "" || IsMonth(v) || IsYear(v) then Some(None) else if IsDay(v) then Some(Some(v)) else None
  }

  // ---- Normalisation ----

  function TrimLanguage(l: Language): Language {
    var framework, level := Trim(l.framework), Trim(l.level);
    Language(Trim(l.name), if framework == "" then UNSPECIFIED else framework, if level == "" then UNSPECIFIED else level)
  }

  function TrimLanguages(ls: seq<Language>): seq<Language> {
    seq(|ls|, i requires 0 <= i < |ls| => TrimLanguage(ls[i]))
  }

  function Trimmed(r: Extraction): Extraction {
    r.(name := Trim(r.name), email := Trim(r.email), phone := Trim(r.phone), location := Trim(r.location),
       currentTitle := Trim(r.currentTitle), summary := Trim(r.summary), totalExperience := Trim(r.totalExperience),
       relevantExperience := Trim(r.relevantExperience), skills := NormalizeSkills(r.skills))
  }

  /** `parses` stands for the address parser of the mail library. */
  predicate Acceptable(r: Extraction, parses: string -> bool) {
    (r.email == "" || parses(r.email)) && AllYearsValid(r.items)
  }

  /** What normalisation leaves in its argument, whether it accepts it or not. */
  function Normalized(r: Extraction, parses: string -> bool): Extraction {
    var t := Trimmed(r);
    if Acceptable(t, parses) then t.(languages := TrimLanguages(t.languages)) else t
  }

  lemma UnspecifiedIsTrimmed()
    ensures Trim(UNSPECIFIED) == UNSPECIFIED && UNSPECIFIED != ""
  {}

  lemma TrimLanguageTwice(l: Language)
    ensures TrimLanguage(TrimLanguage(l)) == TrimLanguage(l)
  {
    UnspecifiedIsTrimmed();
    TrimTwice(l.name);
    TrimTwice(l.framework);
    TrimTwice(l.level);
    hide Trim;
  }

  lemma TrimmedTwice(r: Extraction)
    ensures Trimmed(Trimmed(r)) == Trimmed(r)
  {
    TrimTwice(r.name);
    TrimTwice(r.email);
    TrimTwice(r.phone);
    TrimTwice(r.location);
    TrimTwice(r.currentTitle);
    TrimTwice(r.summary);
    TrimTwice(r.totalExperience);
    TrimTwice(r.relevantExperience);
    NormalizeSkillsTwice(r.skills);
    hide Trim, NormalizeSkills;
  }

  /** Normalising again changes nothing and comes to the same verdict. */
  lemma NormalizedTwice(r: Extraction, parses: string -> bool)
    ensures Normalized(Normalized(r, parses), parses) == Normalized(r, parses)
    ensures Acceptable(Trimmed(Normalized(r, parses)), parses) <==> Acceptable(Trimmed(r), parses)
  {
    TrimmedTwice(r);
    var t := Trimmed(r);
    forall i | 0 <= i < |t.languages| ensures TrimLanguage(TrimLanguage(t.languages[i])) == TrimLanguage(t.languages[i]) {
      TrimLanguageTwice(t.languages[i]);
    }
    hide TrimLanguage, AllYearsValid;
    assert TrimLanguages(TrimLanguages(t.languages)) == TrimLanguages(t.languages);
    hide TrimLanguages;
    var u := t.(languages := TrimLanguages(t.languages));
    assert Trimmed(u) == Trimmed(t).(languages := u.languages);
    hide Trimmed;
  }

  /** Every year a normalised entry stores is null or in range. */
  lemma StoredYearsInRange(date: string, explicit: int)
    requires YearValid(explicit)
    ensures var y := YearOf(date, explicit); y.None? || MIN_YEAR <= y.value <= MAX_YEAR
  {}

  /** A full date is never contradicted by its year column, unless the extraction gave another year. */
  lemma YearOfFullDate(date: string)
    requires IsDay(Trim(date)) && MIN_YEAR <= ToNumber(Trim(date)[..4]) <= MAX_YEAR
    ensures YearOf(date, 0) == Some(ToNumber(Trim(date)[..4]))
  {}

  // ---- Dates, by the calendar ----

  /** The number of leap years from 1 to `y`. */
  function LeapYears(y: nat): nat { if y == 0 then 0 else LeapYears(y - 1) + if IsLeap(y) then 1 else 0 }

  /** Every fourth year is a leap year, but for three in four centuries. */
  lemma {:induction false} LeapYearsOf(y: nat)
    ensures LeapYears(y) == y / 4 - y / 100 + y / 400
    decreases y
  {
    if y > 0 {
      LeapYearsOf(y - 1);
      EveryFourth(y);
      EveryHundredth(y);
      EveryFourHundredth(y);
      assert LeapYears(y) == LeapYears(y - 1) + if y % 4 == 0 && (y % 100 != 0 || y % 400 == 0) then 1 else 0;
    }
  }

  lemma EveryFourth(y: nat)
    requires y > 0
    ensures y / 4 == (y - 1) / 4 + if y % 4 == 0 then 1 else 0
  {}

  lemma Fours(q: int)
    ensures (4 * q) % 4 == 0
  {}

  lemma Hundreds(q: int, r: int)
    requires 0 <= r < 100
    ensures (100 * q + r) / 100 == q && (100 * q + r) % 100 == r
  {}

  lemma FourHundreds(q: int, r: int)
    requires 0 <= r < 400
    ensures (400 * q + r) / 400 == q
  {}

  lemma EveryHundredth(y: nat)
    requires y > 0
    ensures y / 100 == (y - 1) / 100 + if y % 100 == 0 then 1 else 0
    ensures y % 100 == 0 ==> y % 4 == 0
  {
    var q, r := y / 100, y % 100;
    if r == 0 {
      Hundreds(q - 1, 99);
      Fours(25 * q);
    } else {
      Hundreds(q, r - 1);
    }
  }

  lemma EveryFourHundredth(y: nat)
    requires y > 0
    ensures y / 400 == (y - 1) / 400 + if y % 400 == 0 then 1 else 0
    ensures y % 400 == 0 ==> y % 100 == 0
  {
    var q, r := y / 400, y % 400;
    if r == 0 {
      FourHundreds(q - 1, 399);
      Hundreds(4 * q, 0);
    } else {
      FourHundreds(q, r - 1);
    }
  }

  function DaysUpTo(y: int, m: nat): int { if m == 0 then 0 else DaysUpTo(y, m - 1) + DaysIn(y, m) }

  /** Long months alternate with short ones but for July and August; a leap year has one day more, in February. */
  lemma MonthLengths(y: int, m: int)
    requires 1 <= m <= 12
    ensures m != 2 ==> DaysIn(y, m) == 30 + (m + m / 8) % 2
    ensures DaysUpTo(y, 12) == if IsLeap(y) then 366 else 365
  {
    assert DaysUpTo(y, 1) == DaysIn(y, 1);
    assert DaysUpTo(y, 2) == DaysIn(y, 1) + DaysIn(y, 2);
    assert DaysUpTo(y, 4) == DaysUpTo(y, 2) + DaysIn(y, 3) + DaysIn(y, 4);
    assert DaysUpTo(y, 6) == DaysUpTo(y, 4) + DaysIn(y, 5) + DaysIn(y, 6);
    assert DaysUpTo(y, 8) == DaysUpTo(y, 6) + DaysIn(y, 7) + DaysIn(y, 8);
    assert DaysUpTo(y, 10) == DaysUpTo(y, 8) + DaysIn(y, 9) + DaysIn(y, 10);
  }

  predicate YearText(v: string, y: nat) { y <= 9999 && v == Padded(y, 4) }

  predicate MonthText(v: string, y: nat, m: nat) { y <= 9999 && 1 <= m <= 12 && v == Padded(y, 4) + "-" + Padded(m, 2) }

  predicate DayText(v: string, y: nat, m: nat, d: nat) {
    y <= 9999 && 1 <= m <= 12 && 1 <= d <= DaysIn(y, m) && v == Padded(y, 4) + "-" + Padded(m, 2) + "-" + Padded(d, 2)
  }

  lemma Powers()
    ensures Pow10(2) == 100 && Pow10(3) == 1000 && Pow10(4) == 10000
  {
    assert Pow10(2) == 10 * Pow10(1) && Pow10(1) == 10 * Pow10(0);
    assert Pow10(4) == 10 * Pow10(3) && Pow10(3) == 10 * Pow10(2);
  }

  lemma YearIff(v: string)
    ensures IsYear(v) <==> exists y :: YearText(v, y)
    ensures forall y :: YearText(v, y) ==> ToNumber(v) == y
  {
    Powers();
    if IsYear(v) {
      DigitsArePadded(v);
      assert YearText(v, Number(v));
    }
    forall y | YearText(v, y) ensures IsYear(v) && ToNumber(v) == y { PaddedIsRead(y, 4); }
  }

  lemma MonthIff(v: string)
    ensures IsMonth(v) <==> exists y, m :: MonthText(v, y, m)
    ensures forall y, m :: MonthText(v, y, m) ==> ToNumber(v[..4]) == y && ToNumber(v[5..]) == m
  {
    Powers();
    if IsMonth(v) {
      YearIff(v[..4]);
      var y :| YearText(v[..4], y);
      DigitsArePadded(v[5..]);
      assert v == v[..4] + "-" + v[5..];
      assert MonthText(v, y, Number(v[5..]));
    }
    forall y, m | MonthText(v, y, m) ensures IsMonth(v) && ToNumber(v[..4]) == y && ToNumber(v[5..]) == m {
      assert v[..4] == Padded(y, 4) && v[5..] == Padded(m, 2);
      PaddedIsRead(y, 4);
      PaddedIsRead(m, 2);
    }
  }

  lemma DayIff(v: string)
    ensures IsDay(v) <==> exists y, m, d :: DayText(v, y, m, d)
  {
    if IsDay(v) { DayIsText(v); }
    if y, m, d :| DayText(v, y, m, d) { TextIsDay(v, y, m, d); }
  }

  lemma DayIsText(v: string)
    requires IsDay(v)
    ensures exists y, m, d :: DayText(v, y, m, d)
  {
    MonthIff(v[..7]);
    var y, m :| MonthText(v[..7], y, m);
    assert v[..7][..4] == v[..4] && v[..7][5..] == v[5..7];
    DigitsArePadded(v[8..]);
    hide IsMonth, Padded, Digits, Number;
    assert v == v[..7] + "-" + v[8..];
    assert DayText(v, y, m, Number(v[8..]));
  }

  lemma TextIsDay(v: string, y: nat, m: nat, d: nat)
    requires DayText(v, y, m, d)
    ensures IsDay(v)
  {
    var first, last := Padded(y, 4) + "-" + Padded(m, 2), Padded(d, 2);
    Parted(first, "-" + last);
    Parted("-", last);
    Glued(first, "-", last);
    assert v[..7] == first && v[8..] == v[7..][1..] == last;
    assert first[..4] == v[..4] && first[5..] == v[5..7];
    assert MonthText(first, y, m);
    MonthIff(first);
    Powers();
    PaddedIsRead(d, 2);
    hide IsMonth, MonthText, Padded, Digits, Number;
  }

  /** The date column has exactly the days of the calendar; a blank text, a year or a month leaves it null, and
      any other text is refused. */
  lemma DateOutcome(text: string)
    ensures var v := Trim(text);
            && (DateOf(text) == Some(Some(v)) <==> exists y, m, d :: DayText(v, y, m, d))
            && (DateOf(text) == Some(None) <==> v == "" || (exists y :: YearText(v, y)) || exists y, m :: MonthText(v, y, m))
            && (DateOf(text).Some? ==> DateOf(text).value in {None, Some(v)})
  {
    var v := Trim(text);
    YearIff(v);
    MonthIff(v);
    DayIff(v);
    hide Trim;
  }

  /** The year column has the explicit year where there is one; otherwise a year from 1900 to 2200, exactly where
      the text starts with it. */
  lemma YearOutcome(date: string, explicit: int, y: nat)
    ensures explicit != 0 ==> YearOf(date, explicit) == Some(explicit)
    ensures YearOf(date, 0) == Some(y) <==> 1900 <= y <= 2200 && exists rest :: Trim(date) == Padded(y, 4) + rest
    ensures var stored := YearOf(date, 0); stored.None? || stored.value >= 0
  {
    var v := Trim(date);
    hide Trim;
    Powers();
    if YearOf(date, 0) == Some(y) {
      FourDigits(v[..4], y);
      assert v == Padded(y, 4) + v[4..];
    }
    if 1900 <= y <= 2200 {
      if rest :| v == Padded(y, 4) + rest {
        PaddedIsRead(y, 4);
        assert v[..4] == Padded(y, 4);
        assert IsDigit(v[0]) by { assert v[..4][0] == v[0]; }
      }
    }
  }

  /** Four characters that read as 1900 or more are four digits. */
  lemma FourDigits(s: string, y: nat)
    requires |s| == 4 && Atoi(s, MAX_INT) == Some(y) && y >= 1900
    ensures s == Padded(y, 4)
  {
    Powers();
    if s[0] in {'+', '-'} {
      DigitsArePadded(s[1..]);
      assert false;
    } else {
      DigitsArePadded(s);
    }
  }

  // ---- What a normalisation leaves ----

  /** It accepts an extraction whose trimmed address is blank or parses, and whose explicit years are in range and
      in order. */
  lemma AcceptedIff(r: Extraction, parses: string -> bool)
    ensures Acceptable(Trimmed(r), parses) <==>
              && (Trim(r.email) == "" || parses(Trim(r.email)))
              && forall kind, i :: kind in r.items && 0 <= i < |r.items[kind]| ==>
                   var s, e := r.items[kind][i].startYear, r.items[kind][i].endYear;
                   && (s == 0 || 1900 <= s <= 2200) && (e == 0 || 1900 <= e <= 2200) && (s == 0 || e == 0 || s <= e)
  {
    hide Trim, NormalizeSkills;
  }

  /** Texts are trimmed and skills canonical in any case; the languages only where it is accepted, a blank
      framework or level then becoming "unspecified". The histories stay as they are. */
  lemma NormalizedOutcome(r: Extraction, parses: string -> bool)
    ensures var n := Normalized(r, parses);
            && n == Extraction(Trim(r.name), Trim(r.email), Trim(r.phone), Trim(r.location), Trim(r.currentTitle), Trim(r.summary),
                               Trim(r.totalExperience), Trim(r.relevantExperience), NormalizeSkills(r.skills), r.items, n.languages)
            && (!Acceptable(Trimmed(r), parses) ==> n.languages == r.languages)
            && (Acceptable(Trimmed(r), parses) ==>
                  && |n.languages| == |r.languages|
                  && forall i :: 0 <= i < |r.languages| ==> LanguageNormalized(r.languages[i], n.languages[i]))
  {
    hide Trim, NormalizeSkills, Acceptable;
  }

  predicate LanguageNormalized(l: Language, n: Language) {
    && n.name == Trim(l.name)
    && (if Trim(l.framework) == "" then n.framework == "unspecified" else n.framework == Trim(l.framework))
    && (if Trim(l.level) == "" then n.level == "unspecified" else n.level == Trim(l.level))
  }
}
