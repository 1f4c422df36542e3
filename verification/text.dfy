/** The string functions of the Go standard library that the backend uses, over ASCII text. */
module Text {
  import opened Base

  const SPACES: set<char> := {' ', '\t', '\n', '\r', 11 as char, 12 as char}

  function LowerChar(c: char): char { if 'A' <= c <= 'Z' then c + 32 as char else c }

  function UpperChar(c: char): char { if 'a' <= c <= 'z' then c - 32 as char else c }

  function ToLower(s: string): string { seq(|s|, i requires 0 <= i < |s| => LowerChar(s[i])) }

  function TrimLeft(s: string): string {
    if s != "" && s[0] in SPACES then TrimLeft(s[1..]) else s
  }

  function TrimRight(s: string): string {
    if s != "" && s[|s| - 1] in SPACES then TrimRight(s[..|s| - 1]) else s
  }

  /** `strings.TrimSpace` */
  function Trim(s: string): string { TrimRight(TrimLeft(s)) }

  /** The length of the longest prefix without a separator. */
  function Span(s: string, seps: set<char>): (n: nat)
    ensures n <= |s|
  {
    if s == "" || s[0] in seps then 0 else 1 + Span(s[1..], seps)
  }

  /** `strings.FieldsFunc`: the maximal non-empty runs without a separator. */
  function FieldsBy(s: string, seps: set<char>): seq<string>
    decreases |s|
  {
    if s == "" then []
    else if s[0] in seps then FieldsBy(s[1..], seps)
    else var n := Span(s, seps); [s[..n]] + FieldsBy(s[n..], seps)
  }

  /** `strings.Fields` */
  function Fields(s: string): seq<string> { FieldsBy(s, SPACES) }

  /** `strings.Join` with a one-character separator. */
  function Join(parts: seq<string>, sep: char): string {
    if parts == [] then ""
    else if |parts| == 1 then parts[0]
    else parts[0] + [sep] + Join(parts[1..], sep)
  }

  predicate OccursAt(s: string, part: string, i: int) {
    0 <= i && i + |part| <= |s| && s[i..i + |part|] == part
  }

  /** `strings.Contains` */
  predicate Contains(s: string, part: string) {
    exists i :: 0 <= i <= |s| && OccursAt(s, part, i)
  }

  /** `strings.ReplaceAll` for a non-empty pattern. */
  function ReplaceAll(s: string, pattern: string, replacement: string): string
    requires pattern != ""
  {
    if |s| < |pattern| then s
    else if s[..|pattern|] == pattern then replacement + ReplaceAll(s[|pattern|..], pattern, replacement)
    else [s[0]] + ReplaceAll(s[1..], pattern, replacement)
  }

  ghost predicate FreeOf(s: string, seps: set<char>) {
    forall i :: 0 <= i < |s| ==> s[i] !in seps
  }

  ghost predicate AreFields(parts: seq<string>, seps: set<char>) {
    forall i :: 0 <= i < |parts| ==> parts[i] != "" && FreeOf(parts[i], seps)
  }

  lemma {:induction false} SpanFacts(s: string, seps: set<char>)
    ensures FreeOf(s[..Span(s, seps)], seps)
    ensures Span(s, seps) < |s| ==> s[Span(s, seps)] in seps
  {
    if s != "" && s[0] !in seps {
      SpanFacts(s[1..], seps);
      var n := Span(s[1..], seps);
      assert s[..n + 1] == [s[0]] + s[1..][..n];
    }
  }

  lemma {:induction false} FieldsAreFields(s: string, seps: set<char>)
    ensures AreFields(FieldsBy(s, seps), seps)
    decreases |s|
  {
    if s != "" {
      if s[0] in seps {
        FieldsAreFields(s[1..], seps);
      } else {
        var n := Span(s, seps);
        SpanFacts(s, seps);
        FieldsAreFields(s[n..], seps);
      }
    }
  }

  lemma {:induction false} SpanOfField(f: string, rest: string, seps: set<char>)
    requires FreeOf(f, seps) && (rest == "" || rest[0] in seps)
    ensures Span(f + rest, seps) == |f|
  {
    if f == "" {
      assert f + rest == rest;
    } else {
      assert (f + rest)[1..] == f[1..] + rest;
      SpanOfField(f[1..], rest, seps);
    }
  }

  /** Splitting what was joined gives the parts back. */
  lemma {:induction false} FieldsOfJoin(parts: seq<string>, sep: char, seps: set<char>)
    requires AreFields(parts, seps) && sep in seps
    ensures FieldsBy(Join(parts, sep), seps) == parts
  {
    if parts != [] {
      var f := parts[0];
      var rest := if |parts| == 1 then "" else [sep] + Join(parts[1..], sep);
      assert Join(parts, sep) == f + rest;
      assert AreFields(parts[1..], seps);
      SpanOfField(f, rest, seps);
      hide Span, FreeOf, Join;
      Parted(f, rest);
      if |parts| > 1 {
        FieldsOfJoin(parts[1..], sep, seps);
        Parted([sep], Join(parts[1..], sep));
        assert FieldsBy(rest, seps) == FieldsBy(rest[1..], seps);
      }
      HeadAndTail(parts);
    }
  }

  lemma TrimIsStable(s: string)
    requires s != "" ==> s[0] !in SPACES && s[|s| - 1] !in SPACES
    ensures Trim(s) == s
  {}

  lemma {:induction false} TrimLeftFacts(s: string)
    ensures var t := TrimLeft(s); (t != "" ==> t[0] !in SPACES) && |t| <= |s| && t == s[|s| - |t|..]
  {
    if s != "" && s[0] in SPACES { TrimLeftFacts(s[1..]); }
  }

  lemma {:induction false} TrimRightFacts(s: string)
    ensures var t := TrimRight(s); (t != "" ==> t[|t| - 1] !in SPACES) && |t| <= |s| && t == s[..|t|]
  {
    if s != "" && s[|s| - 1] in SPACES { TrimRightFacts(s[..|s| - 1]); }
  }

  /** A trimmed text is a stretch of the original with no white space at either end. */
  lemma TrimFacts(s: string)
    ensures var t := Trim(s); t != "" ==> t[0] !in SPACES && t[|t| - 1] !in SPACES
    ensures |Trim(s)| <= |s|
    ensures Contains(s, Trim(s))
  {
    TrimLeftFacts(s);
    TrimRightFacts(TrimLeft(s));
    var k := |s| - |TrimLeft(s)|;
    assert OccursAt(s, Trim(s), k);
  }

  lemma {:induction false} TrimLeftSplits(s: string)
    ensures forall i :: 0 <= i < |s| - |TrimLeft(s)| ==> s[i] in SPACES
    ensures |TrimLeft(s)| <= |s| && s == s[..|s| - |TrimLeft(s)|] + TrimLeft(s)
  {
    if s != "" && s[0] in SPACES {
      TrimLeftSplits(s[1..]);
      assert forall i :: 0 < i < |s| ==> s[i] == s[1..][i - 1];
      assert s == [s[0]] + s[1..];
    }
  }

  lemma {:induction false} TrimRightSplits(s: string)
    ensures |TrimRight(s)| <= |s| && forall i :: |TrimRight(s)| <= i < |s| ==> s[i] in SPACES
    ensures s == TrimRight(s) + s[|TrimRight(s)|..]
  {
    if s != "" && s[|s| - 1] in SPACES {
      TrimRightSplits(s[..|s| - 1]);
      assert s == s[..|s| - 1] + [s[|s| - 1]];
    }
  }

  /** Trimming takes away white space and nothing else. */
  lemma TrimSplits(s: string) returns (before: string, after: string)
    ensures s == before + Trim(s) + after
    ensures (forall i :: 0 <= i < |before| ==> before[i] in SPACES) && forall i :: 0 <= i < |after| ==> after[i] in SPACES
  {
    var left := TrimLeft(s);
    TrimLeftSplits(s);
    TrimRightSplits(left);
    before, after := s[..|s| - |left|], left[|Trim(s)|..];
    hide TrimLeft, TrimRight;
    Glued(before, Trim(s), after);
  }

  /** Lower-casing keeps every character but the capital letters, and each of those can be got back. */
  lemma LowerFacts(s: string)
    ensures |ToLower(s)| == |s| && ToLower(ToLower(s)) == ToLower(s)
    ensures forall i :: 0 <= i < |s| ==> !('A' <= ToLower(s)[i] <= 'Z')
    ensures forall i :: 0 <= i < |s| ==> if 'A' <= s[i] <= 'Z' then UpperChar(ToLower(s)[i]) == s[i] else ToLower(s)[i] == s[i]
  {}

  lemma TrimTwice(s: string)
    ensures Trim(Trim(s)) == Trim(s)
  {
    TrimFacts(s);
    TrimIsStable(Trim(s));
  }

  lemma {:induction false} ReplaceNothing(s: string, pattern: string, replacement: string)
    requires pattern != "" && !Contains(s, pattern)
    ensures ReplaceAll(s, pattern, replacement) == s
  {
    if |s| >= |pattern| {
      assert !OccursAt(s, pattern, 0);
      forall i | 0 <= i <= |s[1..]| ensures !OccursAt(s[1..], pattern, i) {
        assert !OccursAt(s, pattern, i + 1);
        assert i + |pattern| <= |s[1..]| ==> s[1..][i..i + |pattern|] == s[i + 1..i + 1 + |pattern|];
      }
      ReplaceNothing(s[1..], pattern, replacement);
    }
  }

  lemma {:induction false} ReplaceShrinks(s: string, pattern: string, replacement: string)
    requires |replacement| < |pattern|
    ensures |ReplaceAll(s, pattern, replacement)| <= |s|
    ensures Contains(s, pattern) ==> |ReplaceAll(s, pattern, replacement)| < |s|
  {
    if |s| >= |pattern| {
      if s[..|pattern|] == pattern {
        ReplaceShrinks(s[|pattern|..], pattern, replacement);
      } else {
        ReplaceShrinks(s[1..], pattern, replacement);
        if Contains(s, pattern) {
          var i :| 0 <= i <= |s| && OccursAt(s, pattern, i);
          assert s[1..][i - 1..i - 1 + |pattern|] == s[i..i + |pattern|];
          assert OccursAt(s[1..], pattern, i - 1);
        }
      }
    }
  }

  lemma {:induction false} JoinedFieldsAreNoLonger(s: string, sep: char, seps: set<char>)
    ensures |Join(FieldsBy(s, seps), sep)| <= |s|
    decreases |s|
  {
    if s != "" {
      if s[0] in seps {
        JoinedFieldsAreNoLonger(s[1..], sep, seps);
      } else {
        var n := Span(s, seps);
        SpanFacts(s, seps);
        var more := FieldsBy(s[n..], seps);
        assert FieldsBy(s, seps) == [s[..n]] + more;
        if n < |s| {
          JoinedFieldsAreNoLonger(s[n + 1..], sep, seps);
          assert s[n..][1..] == s[n + 1..];
          assert more == FieldsBy(s[n + 1..], seps);
        }
        assert ([s[..n]] + more)[1..] == more;
      }
    }
  }

  /** Every character of a field comes from the text. */
  lemma {:induction false} FieldCharacters(s: string, seps: set<char>, i: int, k: int)
    requires 0 <= i < |FieldsBy(s, seps)| && 0 <= k < |FieldsBy(s, seps)[i]|
    ensures FieldsBy(s, seps)[i][k] in s
    decreases |s|
  {
    if s[0] in seps {
      FieldCharacters(s[1..], seps, i, k);
    } else if i > 0 {
      FieldCharacters(s[Span(s, seps)..], seps, i - 1, k);
    }
  }

  // ---- Numbers ----

  predicate IsDigit(c: char) { '0' <= c <= '9' }

  /** The length of the run of digits a text starts with. */
  function Digits(s: string): (n: nat)
    ensures n <= |s| && forall i :: 0 <= i < n ==> IsDigit(s[i])
  {
    if s != "" && IsDigit(s[0]) then 1 + Digits(s[1..]) else 0
  }

  lemma {:induction false} DigitsThen(number: string, rest: string)
    requires Digits(number) == |number| && (rest == "" || !IsDigit(rest[0]))
    ensures Digits(number + rest) == |number|
  {
    if number == "" {
      assert number + rest == rest;
    } else {
      assert (number + rest)[1..] == number[1..] + rest;
      DigitsThen(number[1..], rest);
    }
  }

  lemma {:induction false} AllDigits(s: string)
    requires forall i :: 0 <= i < |s| ==> IsDigit(s[i])
    ensures Digits(s) == |s|
  {
    if s != "" { AllDigits(s[1..]); }
  }

  /** The value of a run of digits. */
  function Number(s: string): nat
    requires forall i :: 0 <= i < |s| ==> IsDigit(s[i])
  {
    if s == "" then 0
    else
      assert IsDigit(s[|s| - 1]);
      10 * Number(s[..|s| - 1]) + (s[|s| - 1] as int - '0' as int)
  }

  /** `strconv.Atoi` for a word whose largest value is `maxInt`: an optional sign, then digits only. */
  function Atoi(s: string, maxInt: int): Option<int> {
    var digits := if s != "" && s[0] in {'+', '-'} then s[1..] else s;
    if digits == "" || Digits(digits) != |digits| then None
    else
      var n: int := Number(digits);
      var value := if s[0] == '-' then -n else n;
      if -maxInt - 1 <= value <= maxInt then Some(value) else None
  }

  /** A number written in decimal. */
  function Written(n: nat): string {
    if n < 10 then [DIGITS[n]] else Written(n / 10) + [DIGITS[n % 10]]
  }

  const DIGITS := "0123456789"

  lemma DigitIff(c: char)
    ensures IsDigit(c) <==> c in DIGITS
    ensures forall i :: 0 <= i < 10 ==> IsDigit(DIGITS[i]) && DIGITS[i] as int - '0' as int == i
  {
    if IsDigit(c) { assert c == DIGITS[c as int - '0' as int]; }
  }

  lemma {:induction false} WrittenIsRead(n: nat)
    ensures Digits(Written(n)) == |Written(n)| > 0 && Number(Written(n)) == n
  {
    DigitIff('0');
    if n < 10 {
      assert Written(n)[..0] == "";
    } else {
      WrittenIsRead(n / 10);
      var init, last := Written(n / 10), DIGITS[n % 10];
      assert (init + [last])[..|init|] == init;
      assert forall i :: 0 <= i < |init| ==> IsDigit(init[i]);
      AllDigits(init + [last]);
    }
  }

  lemma AtoiUnsigned(s: string, n: int, maxInt: int)
    requires s != "" && Digits(s) == |s| && n == Number(s) && maxInt >= 0
    ensures Atoi(s, maxInt) == if n <= maxInt then Some(n) else None
  {
    assert IsDigit(s[0]);
    hide Digits, Number;
  }

  lemma AtoiPlus(s: string, n: int, maxInt: int)
    requires s != "" && Digits(s) == |s| && n == Number(s) && maxInt >= 0
    ensures Atoi(['+'] + s, maxInt) == if n <= maxInt then Some(n) else None
  {
    Parted(['+'], s);
    hide Digits, Number;
  }

  lemma AtoiMinus(s: string, n: int, maxInt: int)
    requires s != "" && Digits(s) == |s| && n == Number(s) && maxInt >= 0
    ensures Atoi(['-'] + s, maxInt) == if n <= maxInt + 1 then Some(-n) else None
  {
    Parted(['-'], s);
    hide Digits, Number;
  }

  /** A written number is read back, with or without a sign, exactly when it fits the word. */
  lemma AtoiReads(n: int, maxInt: int)
    requires n >= 0 && maxInt >= 0
    ensures Atoi(Written(n), maxInt) == Atoi(['+'] + Written(n), maxInt) == if n <= maxInt then Some(n) else None
    ensures Atoi(['-'] + Written(n), maxInt) == if n <= maxInt + 1 then Some(-n) else None
  {
    WrittenIsRead(n);
    AtoiUnsigned(Written(n), n, maxInt);
    AtoiPlus(Written(n), n, maxInt);
    AtoiMinus(Written(n), n, maxInt);
    hide Atoi, Written;
  }

  /** Nothing is read from a text that is not a sign or none and then digits, at least one. */
  lemma AtoiNeedsDigits(s: string, maxInt: int)
    requires Atoi(s, maxInt).Some?
    ensures exists sign, digits :: s == sign + digits && sign in {"", "+", "-"} && digits != "" && forall i :: 0 <= i < |digits| ==> digits[i] in DIGITS
  {
    var digits := if s[0] in {'+', '-'} then s[1..] else s;
    assert s == (if s[0] in {'+', '-'} then [s[0]] else "") + digits;
    forall i | 0 <= i < |digits| ensures digits[i] in DIGITS { DigitIff(digits[i]); }
  }

  function Pow10(n: nat): (p: nat)
    ensures p > 0
  {
    if n == 0 then 1 else 10 * Pow10(n - 1)
  }

  /** A number written in so many digits, with leading zeros. */
  function Padded(n: nat, width: nat): (s: string)
    ensures |s| == width
  {
    if width == 0 then "" else Padded(n / 10, width - 1) + [DIGITS[n % 10]]
  }

  lemma {:induction false} PaddedIsRead(n: nat, width: nat)
    requires n < Pow10(width)
    ensures Digits(Padded(n, width)) == width && Number(Padded(n, width)) == n
  {
    DigitIff('0');
    if width > 0 {
      PaddedIsRead(n / 10, width - 1);
      var init, last := Padded(n / 10, width - 1), DIGITS[n % 10];
      assert (init + [last])[..|init|] == init;
      assert forall i :: 0 <= i < |init| ==> IsDigit(init[i]);
      AllDigits(init + [last]);
    }
  }

  lemma Tens(q: nat, d: int)
    requires 0 <= d < 10
    ensures (10 * q + d) / 10 == q && (10 * q + d) % 10 == d
  {}

  lemma DigitChar(c: char)
    requires IsDigit(c)
    ensures DIGITS[c as int - '0' as int] == c
  {
    DigitIff(c);
  }

  lemma PaddedMore(init: string, c: char, n: nat, more: nat)
    requires IsDigit(c) && init == Padded(n, |init|) && more / 10 == n && more % 10 == c as int - '0' as int
    ensures init + [c] == Padded(more, |init| + 1)
  {
    DigitChar(c);
    hide IsDigit;
  }

  lemma NumberOfLast(s: string)
    requires s != "" && Digits(s) == |s|
    ensures var n := |s| - 1; IsDigit(s[n]) && Digits(s[..n]) == n && Number(s) == 10 * Number(s[..n]) + (s[n] as int - '0' as int)
  {
    var n := |s| - 1;
    assert IsDigit(s[n]) && forall i :: 0 <= i < n ==> s[..n][i] == s[i] && IsDigit(s[i]);
    AllDigits(s[..n]);
  }

  /** A run of digits is its number, written in as many digits. */
  lemma {:induction false} DigitsArePadded(s: string)
    requires Digits(s) == |s|
    ensures Number(s) < Pow10(|s|) && s == Padded(Number(s), |s|)
    decreases |s|
  {
    if s != "" {
      var n := |s| - 1;
      NumberOfLast(s);
      assert Pow10(|s|) == 10 * Pow10(n);
      hide Number, Digits, Pow10, Padded;
      DigitsArePadded(s[..n]);
      Tens(Number(s[..n]), s[n] as int - '0' as int);
      PaddedMore(s[..n], s[n], Number(s[..n]), Number(s));
      InitAndLast(s);
    }
  }
}
