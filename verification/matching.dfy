/** Deterministic requirement matching: splitting requirement text, finding evidence for each
    required item, and the verdict over all criteria. */
module Matching {
  import opened Base
  import opened Normalization
  import opened Text

  datatype Status = Matched | Missing | Unknown | NotApplicable

  // ---- Splitting requirement text ----

  const SEPARATORS: set<char> := {',', ';', '\n', '\r', '|'}

  /** Trimmed parts whose normal form is non-empty and new. */
  function Fresh(parts: seq<string>, seen: set<string>): seq<string> {
    if parts == [] then []
    else
      var p := Trim(parts[0]);
      if p == "" || Normalize(p) == "" || Normalize(p) in seen then Fresh(parts[1..], seen)
      else [p] + Fresh(parts[1..], seen + {Normalize(p)})
  }

  function Split(value: string): seq<string> { Fresh(FieldsBy(value, SEPARATORS), {}) }

  method SplitRequirements(value: string) returns (result: seq<string>)
    ensures result == Split(value)
  {
    var parts := FieldsBy(value, SEPARATORS);
    result := [];
    var seen: set<string> := {};
    var i := 0;
    while i < |parts|
      invariant 0 <= i <= |parts|
      invariant result + Fresh(parts[i..], seen) == Fresh(parts, {})
    {
      var part := Trim(parts[i]);
      assert parts[i..][1..] == parts[i + 1..];
      i := i + 1;
      if part == "" { continue; }
      var n := Normalize(part);
      if n != "" && n !in seen {
        seen := seen + {n};
        result := result + [part];
      }
    }
  }

  ghost predicate CleanItems(items: seq<string>, seen: set<string>) {
    && AreFields(items, SEPARATORS)
    && (forall i :: 0 <= i < |items| ==> Trim(items[i]) == items[i] && Normalize(items[i]) != "" && Normalize(items[i]) !in seen)
    && (forall i, j :: 0 <= i < j < |items| ==> Normalize(items[i]) != Normalize(items[j]))
  }

  lemma FreeOfPart(s: string, t: string, seps: set<char>)
    requires FreeOf(s, seps) && Contains(s, t)
    ensures FreeOf(t, seps)
  {}

  lemma {:induction false} FreshIsClean(parts: seq<string>, seen: set<string>)
    requires AreFields(parts, SEPARATORS)
    ensures CleanItems(Fresh(parts, seen), seen)
  {
    if parts != [] {
      var p := Trim(parts[0]);
      TrimTwice(parts[0]);
      TrimFacts(parts[0]);
      FreeOfPart(parts[0], p, SEPARATORS);
      hide Trim, Normalize;
      FreshIsClean(parts[1..], seen);
      FreshIsClean(parts[1..], seen + {Normalize(p)});
    }
  }

  lemma {:induction false} FreshOfClean(items: seq<string>, seen: set<string>)
    requires CleanItems(items, seen)
    ensures Fresh(items, seen) == items
  {
    hide Trim, Normalize;
    if items != [] {
      assert forall i :: 0 <= i < |items[1..]| ==> items[1..][i] == items[i + 1];
      FreshOfClean(items[1..], seen + {Normalize(items[0])});
    }
  }

  /** Splitting the split items, joined by commas, gives the items back. */
  lemma SplitRoundTrip(value: string)
    ensures Split(Join(Split(value), ',')) == Split(value)
  {
    FieldsAreFields(value, SEPARATORS);
    FreshIsClean(FieldsBy(value, SEPARATORS), {});
    var items := Split(value);
    FieldsOfJoin(items, ',', SEPARATORS);
    FreshOfClean(items, {});
  }

  predicate HasForm(items: seq<string>, form: string) {
    exists k :: 0 <= k < |items| && Normalize(items[k]) == form
  }

  /** No requirement is lost: every part with a normal form keeps one item of that normal form. */
  lemma {:induction false} SplitKeepsEveryRequirement(parts: seq<string>, seen: set<string>, i: int)
    requires 0 <= i < |parts| && Trim(parts[i]) != "" && Normalize(Trim(parts[i])) != ""
    ensures Normalize(Trim(parts[i])) in seen || HasForm(Fresh(parts, seen), Normalize(Trim(parts[i])))
  {
    hide Trim, Normalize;
    var p := Trim(parts[0]);
    var skipped := p == "" || Normalize(p) == "" || Normalize(p) in seen;
    var seen' := if skipped then seen else seen + {Normalize(p)};
    var n, out, rest := Normalize(Trim(parts[i])), Fresh(parts, seen), Fresh(parts[1..], seen');
    assert out == if skipped then rest else [p] + rest;
    if i > 0 {
      assert parts[1..][i - 1] == parts[i];
      SplitKeepsEveryRequirement(parts[1..], seen', i - 1);
    }
    hide Fresh;
    if HasForm(rest, n) {
      var k :| 0 <= k < |rest| && Normalize(rest[k]) == n;
      assert out[if skipped then k else k + 1] == rest[k];
    } else if !skipped {
      assert n in seen || Normalize(out[0]) == n;
    }
  }

  // ---- Evidence for a list of required items ----

  predicate Similar(n: string, r: string) { n == r || Contains(n, r) || Contains(r, n) }

  /** Some value supports the required item. */
  predicate Evidenced(values: seq<string>, required: string) {
    Normalize(required) != "" && exists i :: 0 <= i < |values| && Similar(Normalize(values[i]), Normalize(required))
  }

  method ContainsNormalized(values: seq<string>, required: string) returns (found: bool, evidence: string)
    ensures found <==> Evidenced(values, required)
    ensures found ==> evidence in values && Similar(Normalize(evidence), Normalize(required))
  {
    hide Normalize, Similar;
    var r := Normalize(required);
    if r == "" { return false, ""; }
    for i := 0 to |values|
      invariant forall k :: 0 <= k < i ==> !Similar(Normalize(values[k]), r)
    {
      var n := Normalize(values[i]);
      if Similar(n, r) { return true, values[i]; }
    }
    return false, "";
  }

  datatype Evidence = Evidence(status: Status, matched: seq<(string, string)>, missing: seq<string>)

  function Unsupported(items: seq<string>, values: seq<string>): seq<string> {
    if items == [] then []
    else Unsupported(items[..|items| - 1], values) +
         if Evidenced(values, items[|items| - 1]) then [] else [items[|items| - 1]]
  }

  function Supported(items: seq<string>, values: seq<string>): seq<string> {
    if items == [] then []
    else Supported(items[..|items| - 1], values) +
         if Evidenced(values, items[|items| - 1]) then [items[|items| - 1]] else []
  }

  function Items(matched: seq<(string, string)>): seq<string> {
    seq(|matched|, i requires 0 <= i < |matched| => matched[i].0)
  }

  /** The status of a required list against what the candidate has. */
  ghost function ListStatus(required: string, values: seq<string>): Status {
    if Trim(required) == "" then NotApplicable
    else if Split(required) == [] then Unknown
    else if forall i :: 0 <= i < |Split(required)| ==> Evidenced(values, Split(required)[i]) then Matched
    else Missing
  }

  lemma {:induction false} UnsupportedIffMissing(items: seq<string>, values: seq<string>)
    ensures Unsupported(items, values) == [] <==> forall i :: 0 <= i < |items| ==> Evidenced(values, items[i])
  {
    hide Evidenced;
    if items != [] {
      var n := |items| - 1;
      UnsupportedIffMissing(items[..n], values);
      assert forall i :: 0 <= i < n ==> items[..n][i] == items[i];
    }
  }

  /** The common body of the skill, language and certification criteria. */
  method MatchList(required: string, values: seq<string>) returns (e: Evidence)
    ensures e.status == ListStatus(required, values)
    ensures Trim(required) != "" ==> e.missing == Unsupported(Split(required), values)
    ensures Trim(required) != "" ==> Items(e.matched) == Supported(Split(required), values)
    ensures forall k :: 0 <= k < |e.matched| ==>
              e.matched[k].1 in values && Similar(Normalize(e.matched[k].1), Normalize(e.matched[k].0))
  {
    hide Trim, Normalize, Similar, Evidenced, Fresh, FieldsBy;
    if Trim(required) == "" { return Evidence(NotApplicable, [], []); }
    var items := SplitRequirements(required);
    if |items| == 0 { return Evidence(Unknown, [], []); }
    var missing: seq<string>, matched: seq<(string, string)> := [], [];
    for i := 0 to |items|
      invariant missing == Unsupported(items[..i], values) && Items(matched) == Supported(items[..i], values)
      invariant forall k :: 0 <= k < |matched| ==>
                  matched[k].1 in values && Similar(Normalize(matched[k].1), Normalize(matched[k].0))
    {
      var found, evidence := ContainsNormalized(values, items[i]);
      assert items[..i + 1][..i] == items[..i];
      assert Items(matched + [(items[i], evidence)]) == Items(matched) + [items[i]];
      if found { matched := matched + [(items[i], evidence)]; } else { missing := missing + [items[i]]; }
    }
    assert items[..|items|] == items;
    UnsupportedIffMissing(items, values);
    var status := Matched;
    if |missing| > 0 { status := Missing; }
    e := Evidence(status, matched, missing);
  }

  // ---- The other criteria and the verdict ----

  datatype Language = Language(name: string, proficiency: string)

  datatype Candidate = Candidate(
    skills: seq<string>, languages: seq<Language>, certifications: seq<string>,
    experience: string, location: string, noticePeriod: string, workArrangement: string)

  datatype Requirement = Requirement(
    skills: string, mandatory: string, experience: string, languages: string,
    certifications: string, location: string, noticePeriod: string, workArrangement: string)

  function Spoken(languages: seq<Language>): seq<string> {
    seq(|languages|, i requires 0 <= i < |languages| => languages[i].name + " " + languages[i].proficiency)
  }

  // The pattern of `parseYears`: a decimal number, blanks around an optional plus sign, then "year" or "yr".

  const BLANKS: set<char> := {' ', '\t', '\n', '\r', 12 as char}

  function SkipBlanks(s: string): string { if s != "" && s[0] in BLANKS then SkipBlanks(s[1..]) else s }

  function SkipPlus(s: string): string { if s != "" && s[0] == '+' then s[1..] else s }

  predicate StartsWith(s: string, prefix: string) { |prefix| <= |s| && s[..|prefix|] == prefix }

  function Decimal(whole: string, fraction: string): real
    requires Digits(whole) == |whole| && Digits(fraction) == |fraction|
  {
    Number(whole) as real + Number(fraction) as real / Pow10(|fraction|) as real
  }

  /** The length of the decimal number a text starts with; its fraction needs digits on both sides. */
  function DecimalLength(s: string): (n: nat)
    ensures n <= |s|
  {
    var n := Digits(s);
    if 0 < n && n + 1 < |s| && s[n] == '.' && Digits(s[n + 1..]) > 0 then n + 1 + Digits(s[n + 1..]) else n
  }

  predicate YearsFollow(s: string) {
    var rest := SkipBlanks(SkipPlus(SkipBlanks(s)));
    StartsWith(rest, "year") || StartsWith(rest, "yr")
  }

  /** The text starts with a number of years. */
  predicate YearsHere(s: string) { Digits(s) > 0 && YearsFollow(s[DecimalLength(s)..]) }

  function YearsValue(s: string): real
    requires YearsHere(s)
  {
    var n, m := Digits(s), DecimalLength(s);
    DigitsOfPrefix(s, n);
    if m > n then DigitsOfPrefix(s[n + 1..], m - n - 1); Decimal(s[..n], s[n + 1..][..m - n - 1]) else Decimal(s[..n], "")
  }

  /** The first number of years a lower-case text mentions. */
  function FirstYears(s: string): Option<real> {
    if s == "" then None else if YearsHere(s) then Some(YearsValue(s)) else FirstYears(s[1..])
  }

  lemma {:induction false} DigitsOfPrefix(s: string, n: nat)
    requires n <= Digits(s)
    ensures Digits(s[..n]) == n
  {
    if n > 0 {
      DigitsOfPrefix(s[1..], n - 1);
      assert s[..n][1..] == s[1..][..n - 1];
    }
  }

  function ParseYears(text: string): Option<real> { FirstYears(ToLower(text)) }

  /** One reading of the pattern: its groups, and the rest of the text. */
  datatype Phrase = Phrase(whole: string, fraction: string, before: string, plus: bool, after: string, unit: string, rest: string)

  ghost predicate AllBlank(s: string) { forall i :: 0 <= i < |s| ==> s[i] in BLANKS }

  ghost predicate IsPhrase(p: Phrase) {
    && p.whole != "" && Digits(p.whole) == |p.whole| && Digits(p.fraction) == |p.fraction|
    && AllBlank(p.before) && AllBlank(p.after) && p.unit in {"year", "yr"}
  }

  ghost function Tail(p: Phrase): string { p.before + ((if p.plus then ['+'] else []) + (p.after + (p.unit + p.rest))) }

  ghost function PhraseText(p: Phrase): string { p.whole + if p.fraction == "" then Tail(p) else ['.'] + (p.fraction + Tail(p)) }

  /** Some reading of the pattern starts the text, with this number. */
  ghost predicate Reads(s: string, years: real) {
    exists p :: IsPhrase(p) && s == PhraseText(p) && years == Decimal(p.whole, p.fraction)
  }

  lemma {:induction false} SkipAll(b: string, x: string)
    requires AllBlank(b) && (x == "" || x[0] !in BLANKS)
    ensures SkipBlanks(b + x) == x
  {
    if b == "" {
      assert b + x == x;
    } else {
      assert (b + x)[1..] == b[1..] + x;
      SkipAll(b[1..], x);
    }
  }

  lemma {:induction false} SkipSplit(s: string) returns (b: string)
    ensures AllBlank(b) && s == b + SkipBlanks(s)
  {
    b := "";
    if s != "" && s[0] in BLANKS {
      var more := SkipSplit(s[1..]);
      b := [s[0]] + more;
      assert s == [s[0]] + s[1..];
    }
  }

  lemma UnitStarts(unit: string, rest: string)
    requires unit in {"year", "yr"}
    ensures var s := unit + rest; s != "" && s[0] == 'y' && s[0] !in BLANKS && (StartsWith(s, "year") || StartsWith(s, "yr"))
  {
    assert (unit + rest)[..|unit|] == unit;
  }

  lemma SkipsToUnit(before: string, plus: string, after: string, end: string)
    requires AllBlank(before) && AllBlank(after) && plus in {[], ['+']} && end != "" && end[0] == 'y'
    ensures SkipBlanks(SkipPlus(SkipBlanks(before + (plus + (after + end))))) == end
  {
    SkipAll(after, end);
    SkipAll("", end);
    assert "" + end == end;
    hide SkipBlanks;
    if plus == [] {
      assert before + (plus + (after + end)) == (before + after) + end;
      SkipAll(before + after, end);
    } else {
      SkipAll(before, ['+'] + (after + end));
      assert (['+'] + (after + end))[1..] == after + end;
    }
  }

  lemma PhraseFollows(p: Phrase)
    requires IsPhrase(p)
    ensures YearsFollow(Tail(p)) && Tail(p) != "" && !IsDigit(Tail(p)[0]) && Tail(p)[0] != '.'
  {
    UnitStarts(p.unit, p.rest);
    hide StartsWith, SkipBlanks, SkipPlus, Digits;
    SkipsToUnit(p.before, if p.plus then ['+'] else [], p.after, p.unit + p.rest);
    assert Tail(p)[0] in BLANKS || Tail(p)[0] == '+' || Tail(p)[0] == 'y';
  }

  lemma FollowingIsPhrase(s: string, whole: string, fraction: string) returns (p: Phrase)
    requires YearsFollow(s) && whole != "" && Digits(whole) == |whole| && Digits(fraction) == |fraction|
    ensures IsPhrase(p) && s == Tail(p) && p.whole == whole && p.fraction == fraction
  {
    var x := SkipBlanks(s);
    var y := SkipPlus(x);
    var z := SkipBlanks(y);
    var before := SkipSplit(s);
    var after := SkipSplit(y);
    var unit := if StartsWith(z, "year") then "year" else "yr";
    assert z == unit + z[|unit|..];
    p := Phrase(whole, fraction, before, x != y, after, unit, z[|unit|..]);
    assert x == (if p.plus then ['+'] else []) + y;
    assert y == after + (unit + p.rest);
    hide SkipBlanks, StartsWith, Digits;
  }

  lemma WholeLength(whole: string, tail: string)
    requires whole != "" && Digits(whole) == |whole| && tail != "" && !IsDigit(tail[0]) && tail[0] != '.'
    ensures var s := whole + tail; Digits(s) == |whole| == DecimalLength(s) && s[..|whole|] == whole && s[|whole|..] == tail
  {
    DigitsThen(whole, tail);
  }

  lemma PointSplit(whole: string, fraction: string, tail: string)
    ensures var s, n, m := whole + (['.'] + (fraction + tail)), |whole|, |fraction|;
            && s[..n] == whole && s[n] == '.' && s[n + 1..] == fraction + tail
            && s[n + 1..][..m] == fraction && s[n + 1 + m..] == tail
  {
    var s, n, m := whole + (['.'] + (fraction + tail)), |whole|, |fraction|;
    assert s[n + 1 + m..] == s[n + 1..][m..];
  }

  lemma PointLength(whole: string, fraction: string, tail: string)
    requires whole != "" && Digits(whole) == |whole| && fraction != "" && Digits(fraction) == |fraction| && tail != "" && !IsDigit(tail[0])
    ensures var s := whole + (['.'] + (fraction + tail)); Digits(s) == |whole| && DecimalLength(s) == |whole| + 1 + |fraction|
  {
    PointSplit(whole, fraction, tail);
    assert !IsDigit('.');
    hide Digits, IsDigit;
    DigitsThen(whole, ['.'] + (fraction + tail));
    DigitsThen(fraction, tail);
  }

  /** Reading greedily, digits first, misses no other reading of the pattern. */
  lemma PhraseIsHere(p: Phrase)
    requires IsPhrase(p)
    ensures YearsHere(PhraseText(p)) && YearsValue(PhraseText(p)) == Decimal(p.whole, p.fraction)
  {
    PhraseFollows(p);
    hide YearsFollow, Tail, Decimal, DecimalLength, Digits;
    if p.fraction == "" {
      WholeLength(p.whole, Tail(p));
    } else {
      PointSplit(p.whole, p.fraction, Tail(p));
      PointLength(p.whole, p.fraction, Tail(p));
    }
  }

  /** The decimal number in front, taken apart. */
  lemma NumberSplit(s: string) returns (whole: string, fraction: string)
    requires Digits(s) > 0
    ensures whole != "" && Digits(whole) == |whole| && Digits(fraction) == |fraction|
    ensures s == whole + if fraction == "" then s[DecimalLength(s)..] else ['.'] + (fraction + s[DecimalLength(s)..])
    ensures YearsHere(s) ==> YearsValue(s) == Decimal(whole, fraction)
  {
    var n, m := Digits(s), DecimalLength(s);
    DigitsOfPrefix(s, n);
    whole, fraction := s[..n], "";
    if m > n {
      fraction := s[n + 1..][..m - n - 1];
      DigitsOfPrefix(s[n + 1..], m - n - 1);
      assert s[n..] == ['.'] + s[n + 1..] && s[n + 1..] == fraction + s[m..];
    }
    assert s == s[..n] + s[n..];
    hide YearsFollow, Decimal, Digits;
  }

  lemma HereIsPhrase(s: string)
    requires YearsHere(s)
    ensures Reads(s, YearsValue(s))
  {
    var whole, fraction := NumberSplit(s);
    var p := FollowingIsPhrase(s[DecimalLength(s)..], whole, fraction);
    hide YearsHere, YearsValue, Decimal, IsPhrase, Digits, Tail, DecimalLength, YearsFollow;
    assert s == PhraseText(p);
  }

  lemma ReadsIffHere(s: string, years: real)
    ensures Reads(s, years) <==> YearsHere(s) && years == YearsValue(s)
  {
    if Reads(s, years) {
      var p :| IsPhrase(p) && s == PhraseText(p) && years == Decimal(p.whole, p.fraction);
      PhraseIsHere(p);
    }
    if YearsHere(s) { HereIsPhrase(s); }
  }

  /** The pattern starts here with this number and nowhere before it. */
  ghost predicate FirstReads(s: string, i: int, years: real) {
    0 <= i < |s| && Reads(s[i..], years) && forall j :: 0 <= j < i ==> !YearsHere(s[j..])
  }

  /** The years of a text are the number in the first place where the pattern has any reading at all:
      one whole or decimal number, blanks and at most one plus sign, and "year" or "yr". */
  lemma {:induction false} YearsAreFirstReading(s: string, years: real)
    ensures FirstYears(s) == Some(years) <==> exists i :: FirstReads(s, i, years)
  {
    hide YearsHere, YearsValue, Reads;
    if s == "" {
    } else if YearsHere(s) {
      ReadsIffHere(s, years);
      assert s[0..] == s;
      assert FirstYears(s) == Some(years) ==> FirstReads(s, 0, years);
    } else {
      YearsAreFirstReading(s[1..], years);
      LaterReading(s, years);
    }
  }

  lemma LaterReading(s: string, years: real)
    requires s != "" && !YearsHere(s)
    ensures (exists i :: FirstReads(s, i, years)) <==> exists i :: FirstReads(s[1..], i, years)
  {
    ReadsIffHere(s, years);
    hide YearsHere, YearsValue, Reads;
    assert s[0..] == s;
    assert forall k :: 1 <= k <= |s| ==> s[k..] == s[1..][k - 1..];
    if exists i :: FirstReads(s, i, years) {
      var i :| FirstReads(s, i, years);
      assert i > 0;
      forall j | 0 <= j < i - 1 ensures !YearsHere(s[1..][j..]) { assert s[1..][j..] == s[j + 1..]; }
      assert FirstReads(s[1..], i - 1, years);
    }
    if exists i :: FirstReads(s[1..], i, years) {
      var i :| FirstReads(s[1..], i, years);
      forall j | 0 <= j < i + 1 ensures !YearsHere(s[j..]) { if j > 0 { assert s[j..] == s[1..][j - 1..]; } }
      assert s[i + 1..] == s[1..][i..];
      assert FirstReads(s, i + 1, years);
    }
  }

  lemma WholeDecimal(whole: string)
    requires Digits(whole) == |whole|
    ensures Decimal(whole, "") == Number(whole) as real
  {
    var none := "";
    assert Number(none) == 0 && Pow10(|none|) == 1;
    hide Number, Pow10, Digits;
  }

  /** A text that opens with a whole number of years has that number. */
  lemma LeadingYearsAreRead(number: string, rest: string)
    requires number != "" && Digits(number) == |number| && YearsFollow(rest)
    ensures FirstYears(number + rest) == Some(Number(number) as real)
  {
    var p := FollowingIsPhrase(rest, number, "");
    PhraseIsHere(p);
    WholeDecimal(number);
    hide YearsFollow, Decimal, Number, Digits, YearsHere, YearsValue, Tail, IsPhrase;
    assert PhraseText(p) == number + rest;
  }

  /** `years` is this number, scaled down so many times. */
  ghost predicate Scaled(years: real, number: nat, scale: nat) { years * scale as real == number as real }

  ghost predicate Sums(number: nat, x: nat, scale: nat, y: nat) { number == x * scale + y }

  ghost predicate Parts(years: real, x: nat, scale: nat, y: nat) { scale > 0 && years == x as real + y as real / scale as real }

  lemma Shifted(a: int, p: int, i: int, last: int)
    ensures 10 * (a * p + i) + last == a * (10 * p) + (10 * i + last)
  {}

  lemma Unscaled(x: real, y: real, z: real)
    requires z > 0.0
    ensures (x + y / z) * z == x * z + y
  {}

  lemma {:induction false} RealProduct(x: nat, z: nat)
    ensures (x * z) as real == x as real * z as real
  {
    if x > 0 {
      RealProduct(x - 1, z);
      assert x * z == (x - 1) * z + z;
      assert x as real * z as real == (x - 1) as real * z as real + z as real;
    }
  }

  lemma {:induction false} NumberOfSum(a: string, b: string)
    requires Digits(a) == |a| && Digits(b) == |b|
    ensures Digits(a + b) == |a + b| && Sums(Number(a + b), Number(a), Pow10(|b|), Number(b))
    decreases |b|
  {
    AllDigits(a + b);
    if b == "" {
      assert a + b == a;
    } else {
      var n := |b| - 1;
      var init, last := b[..n], b[n] as int - '0' as int;
      AllDigits(init);
      NumberOfSum(a, init);
      assert (a + b)[..|a + b| - 1] == a + init;
      assert Number(a + b) == 10 * Number(a + init) + last && Number(b) == 10 * Number(init) + last;
      assert Pow10(|b|) == 10 * Pow10(n);
      hide Number, Pow10, Digits;
      Shifted(Number(a), Pow10(n), Number(init), last);
    }
  }

  lemma PartsAreScaled(years: real, x: nat, y: nat, scale: nat, number: nat)
    requires Sums(number, x, scale, y) && Parts(years, x, scale, y)
    ensures Scaled(years, number, scale)
  {
    Unscaled(x as real, y as real, scale as real);
    RealProduct(x, scale);
    assert (x * scale + y) as real == (x * scale) as real + y as real;
  }

  lemma DecimalHasParts(whole: string, fraction: string)
    requires Digits(whole) == |whole| && Digits(fraction) == |fraction|
    ensures Parts(Decimal(whole, fraction), Number(whole), Pow10(|fraction|), Number(fraction))
  {}

  /** A decimal is the number of all its digits, scaled down by those after the point. */
  lemma DecimalScaled(whole: string, fraction: string)
    requires Digits(whole) == |whole| && Digits(fraction) == |fraction|
    ensures Digits(whole + fraction) == |whole + fraction| && Scaled(Decimal(whole, fraction), Number(whole + fraction), Pow10(|fraction|))
  {
    NumberOfSum(whole, fraction);
    DecimalHasParts(whole, fraction);
    hide Decimal, Number, Pow10, Digits, Sums, Parts, Scaled;
    PartsAreScaled(Decimal(whole, fraction), Number(whole), Number(fraction), Pow10(|fraction|), Number(whole + fraction));
  }

  /** A text that opens with a decimal number of years has that number. */
  lemma LeadingDecimalIsRead(whole: string, fraction: string, rest: string)
    requires whole != "" && Digits(whole) == |whole| && fraction != "" && Digits(fraction) == |fraction| && YearsFollow(rest)
    ensures Digits(whole + fraction) == |whole + fraction|
    ensures var years := FirstYears(whole + (['.'] + (fraction + rest)));
            years.Some? && Scaled(years.value, Number(whole + fraction), Pow10(|fraction|))
  {
    var p := FollowingIsPhrase(rest, whole, fraction);
    PhraseIsHere(p);
    DecimalScaled(whole, fraction);
    hide YearsFollow, Decimal, Number, Digits, YearsHere, YearsValue, Tail, IsPhrase, Pow10, Scaled;
    assert PhraseText(p) == whole + (['.'] + (fraction + rest));
  }

  function ExperienceStatus(required: string, candidate: string): Status {
    if Trim(required) == "" then NotApplicable
    else if ParseYears(required).None? || ParseYears(candidate).None? then Unknown
    else if ParseYears(candidate).value < ParseYears(required).value then Missing
    else Matched
  }

  function TextStatus(required: string, candidate: string): Status {
    if Trim(required) == "" then NotApplicable
    else if Trim(candidate) == "" then Unknown
    else if Similar(Normalize(candidate), Normalize(required)) then Matched
    else Missing
  }

  /** A candidate who has literally what is asked for matches it. */
  lemma OwnTextMatches(required: string)
    requires Trim(required) != ""
    ensures TextStatus(required, required) == Matched
  {
    hide Trim, Normalize;
  }

  /** More years never worsen the experience criterion. */
  lemma MoreYearsNeverWorsen(required: string, fewer: string, more: string)
    requires ParseYears(fewer).Some? && ParseYears(more).Some? && ParseYears(fewer).value <= ParseYears(more).value
    ensures Rank(ExperienceStatus(required, more)) <= Rank(ExperienceStatus(required, fewer))
  {
    hide Trim, ParseYears;
  }

  ghost function Statuses(req: Requirement, c: Candidate): seq<Status> {
    [ListStatus(req.skills, c.skills), ListStatus(req.mandatory, c.skills),
     ExperienceStatus(req.experience, c.experience),
     ListStatus(req.languages, Spoken(c.languages)), ListStatus(req.certifications, c.certifications),
     TextStatus(req.location, c.location), TextStatus(req.noticePeriod, c.noticePeriod),
     TextStatus(req.workArrangement, c.workArrangement)]
  }

  function Rank(s: Status): nat { if s == Missing then 2 else if s == Unknown then 1 else 0 }

  /** The maximum of the statuses in the order matched < unknown < missing. */
  ghost predicate IsVerdict(statuses: seq<Status>, v: Status) {
    && v != NotApplicable
    && (forall s :: s in statuses ==> Rank(s) <= Rank(v))
    && (v == Matched || v in statuses)
  }

  method Evaluate(req: Requirement, c: Candidate) returns (verdict: Status)
    ensures IsVerdict(Statuses(req, c), verdict)
  {
    hide ListStatus, ExperienceStatus, TextStatus;
    var spoken: seq<string> := [];
    for i := 0 to |c.languages|
      invariant spoken == Spoken(c.languages)[..i]
    {
      spoken := spoken + [c.languages[i].name + " " + c.languages[i].proficiency];
    }
    assert spoken == Spoken(c.languages);
    var skills := MatchList(req.skills, c.skills);
    var mandatory := MatchList(req.mandatory, c.skills);
    var languages := MatchList(req.languages, spoken);
    var certifications := MatchList(req.certifications, c.certifications);
    var criteria := [skills.status, mandatory.status,
                     ExperienceStatus(req.experience, c.experience),
                     languages.status, certifications.status,
                     TextStatus(req.location, c.location), TextStatus(req.noticePeriod, c.noticePeriod),
                     TextStatus(req.workArrangement, c.workArrangement)];
    verdict := Matched;
    for i := 0 to |criteria|
      invariant IsVerdict(criteria[..i], verdict)
    {
      match criteria[i] {
        case Missing => verdict := Missing;
        case Unknown => if verdict != Missing { verdict := Unknown; }
        case _ =>
      }
      assert criteria[..i + 1] == criteria[..i] + [criteria[i]];
    }
    assert criteria[..|criteria|] == criteria;
  }

  /** The verdict does not depend on the order of the criteria. */
  lemma VerdictIgnoresOrder(a: seq<Status>, b: seq<Status>, v: Status, w: Status)
    requires multiset(a) == multiset(b) && IsVerdict(a, v) && IsVerdict(b, w)
    ensures v == w
  {
    assert forall s :: s in a <==> s in multiset(a);
    assert forall s :: s in b <==> s in multiset(b);
  }

  lemma MoreValuesKeepEvidence(values: seq<string>, more: seq<string>, required: string)
    requires forall v :: v in values ==> v in more
    ensures Evidenced(values, required) ==> Evidenced(more, required)
  {
    hide Normalize, Similar;
    if Evidenced(values, required) {
      var i :| 0 <= i < |values| && Similar(Normalize(values[i]), Normalize(required));
      assert values[i] in more;
    }
  }

  lemma MoreValuesNeverWorsen(required: string, values: seq<string>, more: seq<string>)
    requires forall v :: v in values ==> v in more
    ensures Rank(ListStatus(required, more)) <= Rank(ListStatus(required, values))
  {
    hide Evidenced, Split, Trim;
    forall item { MoreValuesKeepEvidence(values, more, item); }
  }

  lemma SpokenGrows(languages: seq<Language>, more: seq<Language>)
    requires forall l :: l in languages ==> l in more
    ensures forall v :: v in Spoken(languages) ==> v in Spoken(more)
  {
    forall v | v in Spoken(languages) ensures v in Spoken(more) {
      var i :| 0 <= i < |languages| && Spoken(languages)[i] == v;
      assert languages[i] in more;
      var j :| 0 <= j < |more| && more[j] == languages[i];
      assert Spoken(more)[j] == v;
    }
  }

  /** Adding skills, languages or certifications anywhere in a candidate's lists never worsens the verdict. */
  lemma AddingEvidenceNeverWorsens(req: Requirement, c: Candidate, more: Candidate, v: Status, w: Status)
    requires (forall s :: s in c.skills ==> s in more.skills) && (forall l :: l in c.languages ==> l in more.languages)
    requires forall s :: s in c.certifications ==> s in more.certifications
    requires more == c.(skills := more.skills, languages := more.languages, certifications := more.certifications)
    requires IsVerdict(Statuses(req, c), v) && IsVerdict(Statuses(req, more), w)
    ensures Rank(w) <= Rank(v)
  {
    hide ListStatus, ExperienceStatus, TextStatus;
    MoreValuesNeverWorsen(req.skills, c.skills, more.skills);
    MoreValuesNeverWorsen(req.mandatory, c.skills, more.skills);
    MoreValuesNeverWorsen(req.certifications, c.certifications, more.certifications);
    SpokenGrows(c.languages, more.languages);
    MoreValuesNeverWorsen(req.languages, Spoken(c.languages), Spoken(more.languages));
    var a, b := Statuses(req, c), Statuses(req, more);
    if w != Matched {
      var i :| 0 <= i < |b| && b[i] == w;
      assert Rank(b[i]) <= Rank(a[i]) && a[i] in a;
    }
  }

  // ---- When a text is evidence, and what each criterion comes to ----

  /** One form is a stretch of the other. */
  lemma SimilarIff(n: string, r: string)
    ensures Similar(n, r) <==> exists before, after :: n == before + r + after || r == before + n + after
  {
    if Contains(n, r) { StretchOf(n, r); }
    if Contains(r, n) { StretchOf(r, n); }
    if n == r { assert n == "" + r + ""; }
    if before, after :| n == before + r + after || r == before + n + after {
      if n == before + r + after { StretchOccurs(before, r, after); } else { StretchOccurs(before, n, after); }
    }
  }

  lemma StretchOf(s: string, part: string)
    requires Contains(s, part)
    ensures exists before, after :: s == before + part + after
  {
    var i :| 0 <= i <= |s| && OccursAt(s, part, i);
    assert s == s[..i] + part + s[i + |part|..];
  }

  lemma StretchOccurs(before: string, part: string, after: string)
    ensures Contains(before + part + after, part)
  {
    assert OccursAt(before + part + after, part, |before|);
  }

  /** An entry without a letter, digit, plus, sharp or full stop is evidence for everything that is required. */
  lemma WordlessEntrySupportsAll(value: string, required: string)
    requires forall i :: 0 <= i < |value| ==> !IsWord(LowerChar(value[i]))
    ensures Evidenced([value], required) <==> Normalize(required) != ""
  {
    EmptyFormIff(value);
    var r := Normalize(required);
    hide Normalize, IsWord;
    assert r == "" + "" + r;
    SimilarIff("", r);
    assert [value][0] == value;
  }

  /** Such an entry is a hyphen, say. */
  lemma HyphenIsWordless()
    ensures !IsWord(LowerChar('-'))
  {}

  /** Apart from such entries an item is supported exactly by an entry whose form is a stretch of its own or has
      its own as a stretch. */
  lemma EvidencedIff(values: seq<string>, required: string)
    ensures Evidenced(values, required) <==>
              Normalize(required) != ""
              && exists i, before, after :: 0 <= i < |values|
                   && (Normalize(values[i]) == before + Normalize(required) + after || Normalize(required) == before + Normalize(values[i]) + after)
  {
    hide Normalize, Similar;
    forall i | 0 <= i < |values| ensures Similar(Normalize(values[i]), Normalize(required)) <==> exists before, after ::
        Normalize(values[i]) == before + Normalize(required) + after || Normalize(required) == before + Normalize(values[i]) + after {
      SimilarIff(Normalize(values[i]), Normalize(required));
    }
  }

  /** Experience is missing exactly when both texts name years and the candidate's are fewer; as many are enough. */
  lemma ExperienceOutcome(required: string, candidate: string)
    ensures var s, r, c := ExperienceStatus(required, candidate), ParseYears(required), ParseYears(candidate);
            && (s == NotApplicable <==> Trim(required) == "")
            && (s == Unknown <==> Trim(required) != "" && (r.None? || c.None?))
            && (s == Missing <==> Trim(required) != "" && r.Some? && c.Some? && c.value < r.value)
            && (s == Matched <==> Trim(required) != "" && r.Some? && c.Some? && c.value >= r.value)
  {
    hide Trim, ParseYears;
  }

  lemma TextOutcome(required: string, candidate: string)
    ensures var s, r, c := TextStatus(required, candidate), Normalize(required), Normalize(candidate);
            && (s == NotApplicable <==> Trim(required) == "")
            && (s == Unknown <==> Trim(required) != "" && Trim(candidate) == "")
            && (s == Matched <==> Trim(required) != "" && Trim(candidate) != ""
                                  && exists before, after :: c == before + r + after || r == before + c + after)
            && (s == Missing || s == NotApplicable || s == Unknown || s == Matched)
  {
    SimilarIff(Normalize(candidate), Normalize(required));
    hide Trim, Normalize, Similar;
  }

  /** A required list is missing exactly when one of its items has no evidence. */
  lemma ListOutcome(required: string, values: seq<string>)
    ensures var s := ListStatus(required, values);
            && (s == NotApplicable <==> Trim(required) == "")
            && (s == Unknown <==> Trim(required) != "" && Split(required) == [])
            && (s == Missing <==> Trim(required) != "" && exists i :: 0 <= i < |Split(required)| && !Evidenced(values, Split(required)[i]))
            && (s == Matched <==> Trim(required) != "" && Split(required) != [] && forall i :: 0 <= i < |Split(required)| ==> Evidenced(values, Split(required)[i]))
  {
    hide Trim, Split, Evidenced;
  }

  /** Every item is reported, as missing where it has no evidence and as matched where it has. */
  lemma {:induction false} MissingAreUnsupported(items: seq<string>, values: seq<string>, x: string)
    ensures x in Unsupported(items, values) <==> x in items && !Evidenced(values, x)
  {
    hide Evidenced;
    if items != [] {
      var n := |items| - 1;
      MissingAreUnsupported(items[..n], values, x);
      assert x in items <==> x in items[..n] || x == items[n];
    }
  }

  lemma {:induction false} MatchedAreSupported(items: seq<string>, values: seq<string>, x: string)
    ensures x in Supported(items, values) <==> x in items && Evidenced(values, x)
    ensures |Unsupported(items, values)| + |Supported(items, values)| == |items|
  {
    hide Evidenced;
    if items != [] {
      var n := |items| - 1;
      MatchedAreSupported(items[..n], values, x);
      assert x in items <==> x in items[..n] || x == items[n];
    }
  }

  /** A missing criterion decides the verdict, an unknown one where none is missing; each of the eight counts. */
  lemma VerdictOutcome(req: Requirement, c: Candidate, v: Status)
    requires IsVerdict(Statuses(req, c), v)
    ensures v == Missing <==>
              || ListStatus(req.skills, c.skills) == Missing || ListStatus(req.mandatory, c.skills) == Missing
              || ExperienceStatus(req.experience, c.experience) == Missing
              || ListStatus(req.languages, Spoken(c.languages)) == Missing
              || ListStatus(req.certifications, c.certifications) == Missing
              || TextStatus(req.location, c.location) == Missing || TextStatus(req.noticePeriod, c.noticePeriod) == Missing
              || TextStatus(req.workArrangement, c.workArrangement) == Missing
    ensures v == Matched <==> forall s :: s in Statuses(req, c) ==> s == Matched || s == NotApplicable
    ensures |Statuses(req, c)| == 8 && v in {Matched, Unknown, Missing}
  {
    hide ListStatus, ExperienceStatus, TextStatus, Spoken;
    var all := Statuses(req, c);
    assert all[0] in all && all[1] in all && all[2] in all && all[3] in all && all[4] in all && all[5] in all && all[6] in all && all[7] in all;
  }

  /** A spoken language is the name and the level, with a blank between. */
  lemma SpokenOutcome(languages: seq<Language>, i: int)
    requires 0 <= i < |languages|
    ensures Spoken(languages)[i] == languages[i].name + [' '] + languages[i].proficiency && |Spoken(languages)| == |languages|
  {}
}
