/** The normal form of requirement and evidence texts, and when taking it again changes nothing. */
module Normalization {
  import opened Base
  import opened Text

  predicate IsWord(c: char) {
    'a' <= c <= 'z' || '0' <= c <= '9' || c == '+' || c == '#' || c == '.'
  }

  function DropNonWord(s: string): (t: string)
    ensures |t| <= |s|
  {
    if s != "" && !IsWord(s[0]) then DropNonWord(s[1..]) else s
  }

  /** Replaces each run of other characters by one blank. */
  function NonWordToSpace(s: string): string
    decreases |s|
  {
    if s == "" then ""
    else if IsWord(s[0]) then [s[0]] + NonWordToSpace(s[1..])
    else " " + NonWordToSpace(DropNonWord(s[1..]))
  }

  const SHARP := "c sharp"
  const PLUS := "c plus plus"

  function Rewrite(s: string): string { ReplaceAll(ReplaceAll(s, SHARP, "c#"), PLUS, "c++") }

  function Normalize(value: string): string {
    Join(Fields(NonWordToSpace(Rewrite(ToLower(Trim(value))))), ' ')
  }

  ghost predicate Words(parts: seq<string>) {
    forall i :: 0 <= i < |parts| ==> parts[i] != "" && forall k :: 0 <= k < |parts[i]| ==> IsWord(parts[i][k])
  }

  lemma {:induction false} BlankedCharacters(s: string, c: char)
    requires c in NonWordToSpace(s)
    ensures IsWord(c) || c == ' '
    decreases |s|
  {
    if s != "" && c != NonWordToSpace(s)[0] {
      if IsWord(s[0]) { BlankedCharacters(s[1..], c); } else { BlankedCharacters(DropNonWord(s[1..]), c); }
    }
  }

  lemma NormalFormIsWords(value: string)
    ensures Words(Fields(NonWordToSpace(Rewrite(ToLower(Trim(value))))))
  {
    var z := NonWordToSpace(Rewrite(ToLower(Trim(value))));
    FieldsAreFields(z, SPACES);
    forall i, k | 0 <= i < |Fields(z)| && 0 <= k < |Fields(z)[i]| ensures IsWord(Fields(z)[i][k]) {
      FieldCharacters(z, SPACES, i, k);
      BlankedCharacters(Rewrite(ToLower(Trim(value))), Fields(z)[i][k]);
    }
  }

  lemma {:induction false} BlankingKeepsWord(w: string, rest: string)
    requires forall k :: 0 <= k < |w| ==> IsWord(w[k])
    ensures NonWordToSpace(w + rest) == w + NonWordToSpace(rest)
  {
    if w == "" {
      assert w + rest == rest;
    } else {
      BlankingKeepsWord(w[1..], rest);
      assert (w + rest)[1..] == w[1..] + rest;
    }
  }

  ghost predicate Settled(y: string) {
    NonWordToSpace(y) == y && forall k :: 0 <= k < |y| ==> IsWord(y[k]) || y[k] == ' '
  }

  /** Words joined by single blanks need no further blanking. */
  lemma {:induction false} JoinedWordsAreSettled(parts: seq<string>)
    requires Words(parts)
    ensures Settled(Join(parts, ' ')) && (parts != [] ==> Join(parts, ' ') != "" && IsWord(Join(parts, ' ')[0]))
  {
    if |parts| == 1 {
      BlankingKeepsWord(parts[0], "");
      assert parts[0] + "" == parts[0];
    } else if |parts| > 1 {
      JoinedWordsAreSettled(parts[1..]);
      BlankBefore(parts[0], Join(parts[1..], ' '));
    }
  }

  lemma BlankBefore(w: string, rest: string)
    requires w != "" && (forall k :: 0 <= k < |w| ==> IsWord(w[k])) && Settled(rest) && rest != "" && IsWord(rest[0])
    ensures Settled(w + [' '] + rest)
  {
    var tail := [' '] + rest;
    assert w + [' '] + rest == w + tail;
    BlankingKeepsWord(w, tail);
    assert tail[1..] == rest && DropNonWord(rest) == rest;
    assert NonWordToSpace(tail) == tail;
  }

  lemma JoinedWords(parts: seq<string>)
    requires Words(parts)
    ensures var y := Join(parts, ' '); NonWordToSpace(y) == y && ToLower(y) == y && Trim(y) == y
  {
    JoinedWordsAreSettled(parts);
    if parts != [] {
      LastIsWord(parts);
      hide Join;
      TrimIsStable(Join(parts, ' '));
    }
  }

  lemma {:induction false} LastIsWord(parts: seq<string>)
    requires Words(parts) && parts != []
    ensures var y := Join(parts, ' '); y != "" && IsWord(y[|y| - 1])
  {
    if |parts| > 1 { LastIsWord(parts[1..]); }
  }

  /** The normal form is stable exactly when it spells out neither "c sharp" nor "c plus plus". */
  lemma StableFormIff(value: string)
    ensures var y := Normalize(value);
            Normalize(y) == y <==> !Contains(y, SHARP) && !Contains(y, PLUS)
  {
    var parts := Fields(NonWordToSpace(Rewrite(ToLower(Trim(value)))));
    var y := Normalize(value);
    NormalFormIsWords(value);
    JoinedWords(parts);
    if !Contains(y, SHARP) && !Contains(y, PLUS) {
      ReplaceNothing(y, SHARP, "c#");
      ReplaceNothing(y, PLUS, "c++");
      assert AreFields(parts, SPACES);
      FieldsOfJoin(parts, ' ', SPACES);
    } else {
      ReplaceShrinks(y, SHARP, "c#");
      if !Contains(y, SHARP) { ReplaceNothing(y, SHARP, "c#"); }
      ReplaceShrinks(ReplaceAll(y, SHARP, "c#"), PLUS, "c++");
      BlankingShrinks(Rewrite(y));
      JoinedFieldsAreNoLonger(NonWordToSpace(Rewrite(y)), ' ', SPACES);
      assert |Normalize(y)| < |y|;
    }
  }

  lemma {:induction false} BlankingShrinks(s: string)
    ensures |NonWordToSpace(s)| <= |s|
    decreases |s|
  {
    if s != "" {
      if IsWord(s[0]) { BlankingShrinks(s[1..]); } else { BlankingShrinks(DropNonWord(s[1..])); }
    }
  }

  lemma HyphenSurvivesRewriting()
    ensures Rewrite(ToLower(Trim("c-sharp"))) == "c-sharp"
  {
    var s := "c-sharp";
    TrimIsStable(s);
    assert ToLower(s) == s;
    hide Trim, ToLower;
    assert s[1] != SHARP[1] && s[..|SHARP|] == s;
    assert ReplaceAll(s[1..], SHARP, "c#") == s[1..];
  }

  lemma HyphenIsBlanked(v: string, w: string)
    requires Words([v, w])
    ensures Join(Fields(NonWordToSpace(v + ['-'] + w)), ' ') == v + [' '] + w
  {
    var parts, tail := [v, w], ['-'] + w;
    assert parts[0] == v && parts[1] == w;
    assert v + ['-'] + w == v + tail && w + "" == w && tail[1..] == w && DropNonWord(w) == w;
    BlankingKeepsWord(v, tail);
    BlankingKeepsWord(w, "");
    assert NonWordToSpace(v + ['-'] + w) == v + [' '] + w;
    assert parts[1..] == [w];
    assert Join(parts, ' ') == v + [' '] + w;
    FieldsOfJoin(parts, ' ', SPACES);
  }

  lemma HyphenForm(s: string)
    requires s == "c-sharp"
    ensures Normalize(s) == SHARP
  {
    HyphenSurvivesRewriting();
    HyphenParts("c", "sharp");
    hide NonWordToSpace, Rewrite, Join, FieldsBy, Trim, ToLower, Words;
  }

  lemma HyphenParts(v: string, w: string)
    requires v == "c" && w == "sharp"
    ensures Join(Fields(NonWordToSpace("c-sharp")), ' ') == SHARP
  {
    assert Words([v, w]);
    hide Words, NonWordToSpace, Join, FieldsBy;
    HyphenIsBlanked(v, w);
    assert v + ['-'] + w == "c-sharp" && v + [' '] + w == SHARP;
  }

  /** A hyphen hides "c sharp" from the first pass. */
  lemma NormalizeIsNotIdempotent(s: string)
    requires s == "c-sharp"
    ensures Normalize(s) == SHARP && Normalize(Normalize(s)) != Normalize(s)
  {
    HyphenForm(s);
    StableFormIff(s);
    hide Normalize;
    assert OccursAt(Normalize(s), SHARP, 0);
  }

  // ---- What the first pass leaves for a second ----

  predicate Starts(s: string, w: string) { |w| <= |s| && s[..|w|] == w }

  /** The word comes next, after a gap of other characters. */
  predicate Next(s: string, w: string) { s != "" && !IsWord(s[0]) && Starts(DropNonWord(s), w) }

  function After(s: string, w: string): string
    requires Next(s, w)
  {
    DropNonWord(s)[|w|..]
  }

  const SHARP_WORD := "sharp"
  const PLUS_WORD := "plus"

  /** What follows a "c" and makes it "c sharp" or "c plus plus", however wide the gaps. */
  predicate Spells(s: string) {
    Next(s, SHARP_WORD) || (Next(s, PLUS_WORD) && Next(After(s, PLUS_WORD), PLUS_WORD))
  }

  const SHARP_TAIL := " sharp"
  const PLUS_TAIL := " plus plus"

  /** ... with some gap other than one blank, so that the phrases are not found before blanking. */
  predicate SpellsLoosely(s: string) { Spells(s) && !Starts(s, SHARP_TAIL) && !Starts(s, PLUS_TAIL) }

  /** Some "c" is followed by a text of this kind. */
  predicate AfterSomeC(s: string, kind: string -> bool) {
    s != "" && ((s[0] == 'c' && kind(s[1..])) || AfterSomeC(s[1..], kind))
  }

  predicate CThen(s: string, kind: string -> bool, i: int) { 0 <= i < |s| && s[i] == 'c' && kind(s[i + 1..]) }

  lemma CThenShifts(s: string, kind: string -> bool, i: int)
    requires s != ""
    ensures CThen(s[1..], kind, i) <==> i >= 0 && CThen(s, kind, i + 1)
  {
    if 0 <= i < |s| - 1 { assert s[1..][i + 1..] == s[i + 2..]; }
  }

  /** The scan finds exactly a "c" somewhere with a text of this kind behind it. */
  lemma {:induction false} AfterSomeCIff(s: string, kind: string -> bool)
    ensures AfterSomeC(s, kind) <==> exists i :: CThen(s, kind, i)
  {
    if s != "" {
      AfterSomeCIff(s[1..], kind);
      assert CThen(s, kind, 0) <==> s[0] == 'c' && kind(s[1..]);
      if i :| CThen(s[1..], kind, i) { CThenShifts(s, kind, i); }
      if i :| CThen(s, kind, i) { CThenShifts(s, kind, i - 1); }
      hide CThen;
    }
  }

  /** The text spells one of the languages out with a gap other than one blank. */
  predicate LooseSpelling(s: string) { AfterSomeC(s, SpellsLoosely) }

  ghost predicate FreeOfC(s: string) { forall i :: 0 <= i < |s| ==> s[i] != 'c' }

  lemma {:induction false} NoCBefore(p: string, s: string, kind: string -> bool)
    requires FreeOfC(p)
    ensures AfterSomeC(p + s, kind) <==> AfterSomeC(s, kind)
  {
    if p == "" {
      assert p + s == s;
    } else {
      assert (p + s)[1..] == p[1..] + s;
      NoCBefore(p[1..], s, kind);
    }
  }

  lemma StartsSplit(s: string, w: string)
    requires Starts(s, w)
    ensures s == w + s[|w|..]
  {}

  // -- Replacing a phrase that has its only "c" in front --

  lemma ReplaceStep(s: string, t: string, u: string)
    requires t != "" && s != ""
    ensures var r, p := ReplaceAll(s, ['c'] + t, ['c'] + u), ['c'] + t;
            && (s[0] != 'c' ==> r == [s[0]] + ReplaceAll(s[1..], p, ['c'] + u))
            && (s[0] == 'c' && Starts(s[1..], t) ==> r == ['c'] + (u + ReplaceAll(s[1 + |t|..], p, ['c'] + u)))
            && (s[0] == 'c' && !Starts(s[1..], t) ==> r == ['c'] + ReplaceAll(s[1..], p, ['c'] + u))
  {
    var p := ['c'] + t;
    assert Starts(s, p) <==> s[0] == 'c' && Starts(s[1..], t) by {
      if s[0] == 'c' && Starts(s[1..], t) { assert s[..|p|] == [s[0]] + s[1..][..|t|]; }
      if Starts(s, p) { assert s[1..][..|t|] == s[..|p|][1..] == p[1..] == t; }
    }
    assert |s| < |p| ==> s == [s[0]] + s[1..];
  }

  lemma {:induction false} ReplaceKeepsStart(s: string, t: string, u: string, w: string)
    requires t != "" && FreeOfC(w)
    ensures var p, q := ['c'] + t, ['c'] + u;
            && (Starts(ReplaceAll(s, p, q), w) <==> Starts(s, w))
            && (Starts(s, w) ==> ReplaceAll(s, p, q)[|w|..] == ReplaceAll(s[|w|..], p, q))
  {
    var r := ReplaceAll(s, ['c'] + t, ['c'] + u);
    if w != "" && s != "" {
      ReplaceStep(s, t, u);
      if s[0] == 'c' {
        assert r[0] == 'c';
      } else {
        ReplaceKeepsStart(s[1..], t, u, w[1..]);
        StartsStep(s, w);
        StartsStep(r, w);
        assert r[1..] == ReplaceAll(s[1..], ['c'] + t, ['c'] + u);
        if Starts(s, w) { assert s[1..][|w| - 1..] == s[|w|..] && r[1..][|w| - 1..] == r[|w|..]; }
      }
    }
  }

  lemma StartsStep(s: string, w: string)
    requires s != "" && w != ""
    ensures Starts(s, w) <==> s[0] == w[0] && Starts(s[1..], w[1..])
  {
    if |w| <= |s| {
      assert s[..|w|] == [s[0]] + s[1..][..|w| - 1];
      assert w == [w[0]] + w[1..];
    }
  }

  lemma {:induction false} ReplaceKeepsGap(s: string, t: string, u: string)
    requires t != ""
    ensures var p, q := ['c'] + t, ['c'] + u;
            && DropNonWord(ReplaceAll(s, p, q)) == ReplaceAll(DropNonWord(s), p, q)
            && (s == "" <==> ReplaceAll(s, p, q) == "") && (s != "" ==> ReplaceAll(s, p, q)[0] == s[0])
  {
    if s != "" {
      ReplaceStep(s, t, u);
      if !IsWord(s[0]) {
        var r := ReplaceAll(s, ['c'] + t, ['c'] + u);
        assert r[1..] == ReplaceAll(s[1..], ['c'] + t, ['c'] + u);
        ReplaceKeepsGap(s[1..], t, u);
      }
    }
  }

  lemma ReplaceKeepsNext(s: string, t: string, u: string, w: string)
    requires t != "" && FreeOfC(w)
    ensures var p, q := ['c'] + t, ['c'] + u;
            && (Next(ReplaceAll(s, p, q), w) <==> Next(s, w))
            && (Next(s, w) ==> After(ReplaceAll(s, p, q), w) == ReplaceAll(After(s, w), p, q))
  {
    ReplaceKeepsGap(s, t, u);
    ReplaceKeepsStart(DropNonWord(s), t, u, w);
    hide ReplaceAll, DropNonWord;
  }

  lemma ReplaceKeepsSpelling(s: string, t: string, u: string)
    requires t != ""
    ensures Spells(ReplaceAll(s, ['c'] + t, ['c'] + u)) <==> Spells(s)
  {
    assert FreeOfC(SHARP_WORD) && FreeOfC(PLUS_WORD);
    ReplaceKeepsNext(s, t, u, SHARP_WORD);
    ReplaceKeepsNext(s, t, u, PLUS_WORD);
    hide ReplaceAll, Next, After;
    if Next(s, PLUS_WORD) { ReplaceKeepsNext(After(s, PLUS_WORD), t, u, PLUS_WORD); }
  }

  /** Replacing the phrase takes away exactly the occurrences where it is spelled tightly. */
  lemma {:induction false} ReplaceTakesTight(s: string, t: string, u: string, kind: string -> bool, rest: string -> bool)
    requires t != "" && FreeOfC(t) && FreeOfC(u)
    requires forall x :: kind(ReplaceAll(x, ['c'] + t, ['c'] + u)) <==> kind(x)
    requires forall x :: !kind(u + x)
    requires forall x :: rest(x) <==> kind(x) && !Starts(x, t)
    ensures AfterSomeC(ReplaceAll(s, ['c'] + t, ['c'] + u), kind) <==> AfterSomeC(s, rest)
  {
    var r := ReplaceAll(s, ['c'] + t, ['c'] + u);
    if s != "" {
      ReplaceStep(s, t, u);
      var tail := s[1..];
      if s[0] == 'c' && Starts(tail, t) {
        var more := s[1 + |t|..];
        ReplaceTakesTight(more, t, u, kind, rest);
        assert tail[|t|..] == more;
        StartsSplit(tail, t);
        NoCBefore(t, more, rest);
        NoCBefore(u, ReplaceAll(more, ['c'] + t, ['c'] + u), kind);
        assert r[1..] == u + ReplaceAll(more, ['c'] + t, ['c'] + u);
      } else {
        ReplaceTakesTight(tail, t, u, kind, rest);
        assert r[1..] == ReplaceAll(tail, ['c'] + t, ['c'] + u);
      }
    }
  }

  predicate NotPlus(s: string) { Spells(s) && !Starts(s, PLUS_TAIL) }

  /** Of all the spellings only the loose ones get past the two replacements. */
  lemma RewriteLeavesLoose(s: string)
    ensures AfterSomeC(Rewrite(s), Spells) <==> LooseSpelling(s)
  {
    assert SHARP == ['c'] + SHARP_TAIL && "c#" == ['c'] + "#" && FreeOfC(SHARP_TAIL) && FreeOfC("#");
    assert PLUS == ['c'] + PLUS_TAIL && "c++" == ['c'] + "++" && FreeOfC(PLUS_TAIL) && FreeOfC("++");
    RewriteTwice(s, "#", "++");
  }

  lemma RewriteTwice(s: string, u: string, v: string)
    requires FreeOfC(SHARP_TAIL) && FreeOfC(PLUS_TAIL) && FreeOfC(u) && FreeOfC(v)
    requires u != "" && IsWord(u[0]) && v != "" && IsWord(v[0])
    ensures var first := ReplaceAll(s, ['c'] + SHARP_TAIL, ['c'] + u);
            AfterSomeC(ReplaceAll(first, ['c'] + PLUS_TAIL, ['c'] + v), Spells) <==> LooseSpelling(s)
  {
    var first := ReplaceAll(s, ['c'] + SHARP_TAIL, ['c'] + u);
    forall x ensures Spells(ReplaceAll(x, ['c'] + PLUS_TAIL, ['c'] + v)) <==> Spells(x) { ReplaceKeepsSpelling(x, PLUS_TAIL, v); }
    forall x ensures NotPlus(ReplaceAll(x, ['c'] + SHARP_TAIL, ['c'] + u)) <==> NotPlus(x) {
      ReplaceKeepsSpelling(x, SHARP_TAIL, u);
      ReplaceKeepsStart(x, SHARP_TAIL, u, PLUS_TAIL);
      hide Spells, ReplaceAll;
    }
    assert forall x :: !Spells(v + x) && !NotPlus(u + x);
    hide Spells, ReplaceAll, Starts, AfterSomeC;
    ReplaceTakesTight(first, PLUS_TAIL, v, Spells, NotPlus);
    ReplaceTakesTight(s, SHARP_TAIL, u, NotPlus, SpellsLoosely);
  }

  // -- Blanking --

  ghost predicate AllWord(w: string) { forall i :: 0 <= i < |w| ==> IsWord(w[i]) }

  lemma {:induction false} BlankingKeepsStart(s: string, w: string)
    requires AllWord(w)
    ensures (Starts(NonWordToSpace(s), w) <==> Starts(s, w)) && (Starts(s, w) ==> NonWordToSpace(s)[|w|..] == NonWordToSpace(s[|w|..]))
    decreases w
  {
    var r := NonWordToSpace(s);
    if w != "" && s != "" {
      StartsStep(s, w);
      StartsStep(r, w);
      if IsWord(s[0]) {
        assert r[1..] == NonWordToSpace(s[1..]);
        BlankingKeepsStart(s[1..], w[1..]);
        if Starts(s, w) { assert s[1..][|w| - 1..] == s[|w|..] && r[1..][|w| - 1..] == r[|w|..]; }
      } else {
        assert r[0] == ' ' && IsWord(w[0]);
      }
    }
  }

  /** A gap is free of "c", and a word or nothing follows it. */
  lemma {:induction false} Dropped(s: string)
    ensures var d := DropNonWord(s); (d == "" || IsWord(d[0])) && s == s[..|s| - |d|] + d && FreeOfC(s[..|s| - |d|])
  {
    if s != "" && !IsWord(s[0]) {
      Dropped(s[1..]);
      var d := DropNonWord(s);
      assert s[..|s| - |d|] == [s[0]] + s[1..][..|s| - 1 - |d|];
    }
  }

  lemma BlankingKeepsGap(s: string)
    ensures DropNonWord(NonWordToSpace(s)) == NonWordToSpace(DropNonWord(s))
    ensures (s == "" <==> NonWordToSpace(s) == "") && (s != "" ==> (IsWord(s[0]) <==> IsWord(NonWordToSpace(s)[0])))
  {
    if s != "" && !IsWord(s[0]) {
      Dropped(s);
      var d := DropNonWord(s);
      assert NonWordToSpace(s)[1..] == NonWordToSpace(d);
    }
  }

  lemma BlankingKeepsNext(s: string, w: string)
    requires AllWord(w)
    ensures Next(NonWordToSpace(s), w) <==> Next(s, w)
    ensures Next(s, w) ==> After(NonWordToSpace(s), w) == NonWordToSpace(After(s, w))
  {
    BlankingKeepsGap(s);
    BlankingKeepsStart(DropNonWord(s), w);
    hide NonWordToSpace, DropNonWord, IsWord;
  }

  lemma BlankingKeepsSpelling(s: string)
    ensures Spells(NonWordToSpace(s)) <==> Spells(s)
  {
    assert AllWord(SHARP_WORD) && AllWord(PLUS_WORD);
    BlankingKeepsNext(s, SHARP_WORD);
    BlankingKeepsNext(s, PLUS_WORD);
    hide NonWordToSpace, Next, After;
    if Next(s, PLUS_WORD) { BlankingKeepsNext(After(s, PLUS_WORD), PLUS_WORD); }
  }

  lemma {:induction false} BlankingKeepsSpellings(s: string)
    ensures AfterSomeC(NonWordToSpace(s), Spells) <==> AfterSomeC(s, Spells)
    decreases |s|
  {
    var r := NonWordToSpace(s);
    if s != "" {
      if IsWord(s[0]) {
        assert r[1..] == NonWordToSpace(s[1..]);
        BlankingKeepsSpelling(s[1..]);
        BlankingKeepsSpellings(s[1..]);
        hide Spells, NonWordToSpace;
      } else {
        Dropped(s[1..]);
        var d := DropNonWord(s[1..]);
        BlankingKeepsSpellings(d);
        assert r[1..] == NonWordToSpace(d);
        hide Spells, NonWordToSpace;
        NoCBefore(s[1..][..|s| - 1 - |d|], d, Spells);
      }
    }
  }

  // -- White space at the ends --

  lemma AppendKeepsStart(s: string, a: char, w: string)
    requires !IsWord(a) && (w != "" ==> IsWord(w[|w| - 1]))
    ensures (Starts(s + [a], w) <==> Starts(s, w)) && (Starts(s, w) ==> (s + [a])[|w|..] == s[|w|..] + [a])
  {
    if |w| <= |s| {
      assert (s + [a])[..|w|] == s[..|w|];
    } else if |w| == |s| + 1 {
      assert (s + [a])[..|w|] == s + [a];
    }
  }

  lemma {:induction false} AppendKeepsGap(s: string, a: char)
    requires !IsWord(a)
    ensures DropNonWord(s + [a]) == if DropNonWord(s) == "" then "" else DropNonWord(s) + [a]
  {
    if s != "" {
      assert (s + [a])[1..] == s[1..] + [a];
      if !IsWord(s[0]) { AppendKeepsGap(s[1..], a); }
    } else {
      assert s + [a] == [a] && [a][1..] == "";
    }
  }

  lemma AppendKeepsNext(s: string, a: char, w: string)
    requires !IsWord(a) && w != "" && AllWord(w)
    ensures (Next(s + [a], w) <==> Next(s, w)) && (Next(s, w) ==> After(s + [a], w) == After(s, w) + [a])
  {
    AppendKeepsGap(s, a);
    AppendKeepsStart(DropNonWord(s), a, w);
    assert s != "" ==> (s + [a])[0] == s[0];
    hide DropNonWord;
  }

  lemma AppendKeepsSpelling(s: string, a: char)
    requires !IsWord(a)
    ensures (Spells(s + [a]) <==> Spells(s)) && (SpellsLoosely(s + [a]) <==> SpellsLoosely(s))
  {
    assert AllWord(SHARP_WORD) && AllWord(PLUS_WORD);
    AppendKeepsNext(s, a, SHARP_WORD);
    AppendKeepsNext(s, a, PLUS_WORD);
    AppendKeepsStart(s, a, SHARP_TAIL);
    AppendKeepsStart(s, a, PLUS_TAIL);
    hide Next, After, Starts;
    if Next(s, PLUS_WORD) { AppendKeepsNext(After(s, PLUS_WORD), a, PLUS_WORD); }
  }

  lemma {:induction false} AppendKeepsSpellings(s: string, a: char)
    requires !IsWord(a)
    ensures (AfterSomeC(s + [a], Spells) <==> AfterSomeC(s, Spells)) && (LooseSpelling(s + [a]) <==> LooseSpelling(s))
  {
    if s == "" {
      assert (s + [a])[1..] == "" && a != 'c';
    } else {
      assert (s + [a])[1..] == s[1..] + [a];
      AppendKeepsSpelling(s[1..], a);
      hide Spells, SpellsLoosely;
      AppendKeepsSpellings(s[1..], a);
    }
  }

  lemma SpacesAreGaps(a: char)
    requires a in SPACES
    ensures LowerChar(a) == a && !IsWord(a) && a != 'c'
  {}

  lemma {:induction false} TrimLeftKeepsLoose(s: string)
    ensures LooseSpelling(ToLower(TrimLeft(s))) <==> LooseSpelling(ToLower(s))
  {
    if s != "" && s[0] in SPACES {
      SpacesAreGaps(s[0]);
      assert ToLower(s)[1..] == ToLower(s[1..]) && ToLower(s)[0] == s[0];
      hide SpellsLoosely;
      TrimLeftKeepsLoose(s[1..]);
    }
  }

  lemma {:induction false} TrimRightKeepsLoose(s: string)
    ensures LooseSpelling(ToLower(TrimRight(s))) <==> LooseSpelling(ToLower(s))
  {
    if s != "" && s[|s| - 1] in SPACES {
      var a, init := s[|s| - 1], s[..|s| - 1];
      SpacesAreGaps(a);
      assert ToLower(s) == ToLower(init) + [a];
      AppendKeepsSpellings(ToLower(init), a);
      hide LooseSpelling;
      TrimRightKeepsLoose(init);
    }
  }

  // -- Joining the words --

  /** Every gap is a single blank. */
  ghost predicate SingleBlanks(s: string) {
    && (forall i :: 0 <= i < |s| ==> IsWord(s[i]) || s[i] == ' ')
    && (forall i, j :: 0 <= i < j < |s| && j == i + 1 && s[i] == ' ' ==> IsWord(s[j]))
  }

  lemma {:induction false} BlankedIsSingle(s: string)
    ensures SingleBlanks(NonWordToSpace(s)) && (s != "" ==> NonWordToSpace(s) != "" && (IsWord(s[0]) ==> IsWord(NonWordToSpace(s)[0])))
    decreases |s|
  {
    if s != "" {
      if IsWord(s[0]) {
        BlankedIsSingle(s[1..]);
        OneMore(s[0], NonWordToSpace(s[1..]));
      } else {
        Dropped(s[1..]);
        BlankedIsSingle(DropNonWord(s[1..]));
        OneMore(' ', NonWordToSpace(DropNonWord(s[1..])));
        hide DropNonWord;
      }
    }
  }

  lemma OneMore(c: char, s: string)
    requires SingleBlanks(s) && (IsWord(c) || (c == ' ' && (s != "" ==> IsWord(s[0]))))
    ensures SingleBlanks([c] + s)
  {
    var r := [c] + s;
    forall i, j | 0 <= i < j < |r| && j == i + 1 && r[i] == ' ' ensures IsWord(r[j]) {
      if i > 0 { assert r[i] == s[i - 1] && r[j] == s[j - 1]; }
    }
  }

  lemma SpanOfWords(s: string)
    requires SingleBlanks(s) && s != "" && s[0] != ' '
    ensures var n := Span(s, SPACES); 0 < n && (n < |s| ==> s[n] == ' ')
  {
    SpanFacts(s, SPACES);
    var n := Span(s, SPACES);
    assert IsWord(s[0]);
    WordsAreNoSpaces(s[0]);
    if n < |s| { WordsAreNoSpaces(s[n]); }
    hide IsWord;
  }

  lemma WordsAreNoSpaces(c: char)
    ensures IsWord(c) ==> c !in SPACES
  {}

  lemma SingleSuffix(s: string, n: nat)
    requires SingleBlanks(s) && n <= |s|
    ensures SingleBlanks(s[n..]) && (0 < n < |s| && s[n - 1] == ' ' ==> s[n] != ' ')
  {}

  /** Joining the fields of a text with single blanks only takes a blank from either end. */
  lemma {:induction false} JoinStrips(s: string) returns (before: string, after: string)
    requires SingleBlanks(s)
    ensures s == before + Join(Fields(s), ' ') + after && before in {"", " "} && after in {"", " "}
    ensures s != "" && s[0] != ' ' ==> before == ""
    decreases |s|
  {
    before, after := "", "";
    if s != "" && s[0] == ' ' {
      SingleSuffix(s, 1);
      hide SingleBlanks, Join;
      before, after := JoinStrips(s[1..]);
      assert s == [' '] + s[1..] && Fields(s) == Fields(s[1..]);
      hide FieldsBy;
      if s[1..] == "" { before, after := " ", ""; } else { before := " "; }
    } else if s != "" {
      SpanOfWords(s);
      SingleSuffix(s, Span(s, SPACES));
      hide SingleBlanks;
      after := FieldAndRest(s);
    }
  }

  lemma {:induction false} FieldAndRest(s: string) returns (after: string)
    requires s != "" && s[0] != ' ' && 0 < Span(s, SPACES) && SingleBlanks(s[Span(s, SPACES)..])
    requires Span(s, SPACES) < |s| ==> s[Span(s, SPACES)] == ' '
    ensures s == Join(Fields(s), ' ') + after && after in {"", " "}
    decreases |s|, 0
  {
    after := "";
    var n := Span(s, SPACES);
    var f, rest := s[..n], s[n..];
    assert s == f + rest && Fields(s) == [f] + Fields(rest);
    hide FieldsBy, SingleBlanks;
    FieldsAreFields(rest, SPACES);
    JoinCons(f, Fields(rest));
    hide Join, AreFields, Span;
    if rest != "" {
      var b, a := JoinStrips(rest);
      after := JoinedEnd(f, rest, b, Join(Fields(rest), ' '), a);
    } else {
      NoFields();
    }
  }

  lemma NoFields()
    ensures Fields("") == []
  {}

  lemma JoinCons(f: string, parts: seq<string>)
    requires AreFields(parts, SPACES)
    ensures Join([f] + parts, ' ') == if parts == [] then f else f + [' '] + Join(parts, ' ')
    ensures parts == [] ==> Join(parts, ' ') == ""
    ensures parts != [] ==> Join(parts, ' ') != "" && Join(parts, ' ')[0] != ' '
  {
    assert ([f] + parts)[1..] == parts;
  }

  lemma JoinedEnd(f: string, rest: string, b: string, joined: string, a: string) returns (after: string)
    requires SingleBlanks(rest) && rest != "" && rest[0] == ' ' && rest == b + joined + a
    requires b in {"", " "} && a in {"", " "} && (joined != "" ==> joined[0] != ' ')
    ensures after in {"", " "} && f + rest == (if joined == "" then f else f + [' '] + joined) + after
  {
    if joined == "" {
      after := " ";
      assert rest == b + a;
      var two := [' ', ' '];
      assert !SingleBlanks(two) by { assert two[0] == ' ' && !IsWord(two[1]); }
      assert rest != two;
    } else {
      after := a;
      assert b == " ";
    }
  }

  // -- Both phrases in a normal form --

  lemma ContainsStep(s: string, p: string)
    requires s != "" && p != ""
    ensures Contains(s, p) <==> Starts(s, p) || Contains(s[1..], p)
  {
    if Contains(s, p) && !Starts(s, p) {
      var i :| 0 <= i <= |s| && OccursAt(s, p, i);
      assert i > 0 && s[1..][i - 1..i - 1 + |p|] == s[i..i + |p|];
      assert OccursAt(s[1..], p, i - 1);
    }
    if Starts(s, p) { assert OccursAt(s, p, 0); }
    if Contains(s[1..], p) {
      var i :| 0 <= i <= |s[1..]| && OccursAt(s[1..], p, i);
      assert s[1..][i..i + |p|] == s[i + 1..i + 1 + |p|];
      assert OccursAt(s, p, i + 1);
    }
  }

  lemma SingleBlankNext(s: string, w: string)
    requires SingleBlanks(s) && w != "" && AllWord(w)
    ensures Next(s, w) <==> Starts(s, [' '] + w)
    ensures Next(s, w) ==> After(s, w) == s[1 + |w|..] && SingleBlanks(After(s, w))
  {
    if s != "" && !IsWord(s[0]) {
      assert |s| > 1 ==> IsWord(s[1]);
      assert DropNonWord(s) == DropNonWord(s[1..]) == s[1..];
      StartsStep(s, [' '] + w);
      assert ([' '] + w)[1..] == w;
    } else if s != "" {
      StartsStep(s, [' '] + w);
    }
  }

  lemma StartsTwice(s: string, v: string, w: string)
    ensures Starts(s, v + w) <==> Starts(s, v) && Starts(s[|v|..], w)
  {
    if Starts(s, v + w) {
      assert s[..|v|] == s[..|v + w|][..|v|] && s[|v|..][..|w|] == s[..|v + w|][|v|..];
    }
    if Starts(s, v) && Starts(s[|v|..], w) { assert s[..|v| + |w|] == s[..|v|] + s[|v|..][..|w|]; }
  }

  lemma SingleBlankSpells(s: string)
    requires SingleBlanks(s)
    ensures Spells(s) <==> Starts(s, SHARP_TAIL) || Starts(s, PLUS_TAIL)
  {
    assert AllWord(SHARP_WORD) && AllWord(PLUS_WORD);
    var blankPlus := [' '] + PLUS_WORD;
    assert SHARP_TAIL == [' '] + SHARP_WORD && PLUS_TAIL == blankPlus + blankPlus;
    SingleBlankNext(s, SHARP_WORD);
    SingleBlankNext(s, PLUS_WORD);
    StartsTwice(s, blankPlus, blankPlus);
    hide Next, After, Starts;
    if Next(s, PLUS_WORD) { SingleBlankNext(After(s, PLUS_WORD), PLUS_WORD); }
  }

  lemma {:induction false} SingleBlankSpellings(s: string)
    requires SingleBlanks(s)
    ensures AfterSomeC(s, Spells) <==> Contains(s, SHARP) || Contains(s, PLUS)
  {
    if s != "" {
      ContainsStep(s, SHARP);
      ContainsStep(s, PLUS);
      StartsStep(s, SHARP);
      StartsStep(s, PLUS);
      assert SHARP[1..] == SHARP_TAIL && PLUS[1..] == PLUS_TAIL;
      assert SingleBlanks(s[1..]);
      SingleBlankSpells(s[1..]);
      SingleBlankSpellings(s[1..]);
      hide Spells, Starts, Contains;
    }
  }

  lemma TrimKeepsLoose(value: string)
    ensures LooseSpelling(ToLower(Trim(value))) <==> LooseSpelling(ToLower(value))
  {
    hide LooseSpelling, TrimLeft, TrimRight, ToLower;
    TrimLeftKeepsLoose(value);
    TrimRightKeepsLoose(TrimLeft(value));
  }

  lemma JoinKeepsSpellings(z: string)
    requires SingleBlanks(z)
    ensures var y := Join(Fields(z), ' '); (AfterSomeC(y, Spells) <==> AfterSomeC(z, Spells)) && SingleBlanks(y)
  {
    var before, after := JoinStrips(z);
    var y := Join(Fields(z), ' ');
    hide Join, FieldsBy, Spells, IsWord;
    assert z == before + (y + after);
    NoCBefore(before, y + after, Spells);
    assert !IsWord(' ') by { BlankIsNoWord(); }
    if after == " " { AppendKeepsSpellings(y, ' '); } else { assert y + after == y; }
    assert forall i :: 0 <= i < |y| ==> y[i] == z[|before| + i];
  }

  lemma BlankIsNoWord()
    ensures !IsWord(' ')
  {}

  lemma NormalFormSpells(value: string)
    ensures AfterSomeC(Normalize(value), Spells) <==> LooseSpelling(ToLower(value))
    ensures SingleBlanks(Normalize(value))
  {
    var v := ToLower(Trim(value));
    hide Rewrite, NonWordToSpace, Join, FieldsBy, Spells, ToLower, Trim, AfterSomeC, LooseSpelling, SingleBlanks;
    TrimKeepsLoose(value);
    RewriteLeavesLoose(v);
    BlankingKeepsSpellings(Rewrite(v));
    BlankedIsSingle(Rewrite(v));
    JoinKeepsSpellings(NonWordToSpace(Rewrite(v)));
  }

  /** Normalising twice equals normalising once exactly when the lower-case text has neither a "c" and a
      "sharp" with a gap other than one blank between them, nor a "c", a "plus" and a "plus" whose two
      gaps are not both one blank. */
  lemma NormalizeStableIff(value: string)
    ensures Normalize(Normalize(value)) == Normalize(value) <==> !LooseSpelling(ToLower(value))
  {
    NormalFormSpells(value);
    StableFormIff(value);
    hide Normalize, AfterSomeC, LooseSpelling, ToLower;
    SingleBlankSpellings(Normalize(value));
  }

  // ---- Texts without a word ----

  lemma {:induction false} NoWordToBlank(s: string)
    requires forall i :: 0 <= i < |s| ==> !IsWord(s[i])
    ensures NonWordToSpace(s) == if s == "" then "" else " "
  {
    if s != "" {
      AllDropped(s[1..]);
      assert NonWordToSpace("") == "";
    }
  }

  lemma {:induction false} AllDropped(s: string)
    requires forall i :: 0 <= i < |s| ==> !IsWord(s[i])
    ensures DropNonWord(s) == ""
  {
    if s != "" { AllDropped(s[1..]); }
  }

  lemma OccursFrom(s: string, part: string, i: int)
    requires OccursAt(s, part, i) && part != ""
    ensures s[i] == part[0]
  {
    assert s[i..i + |part|][0] == s[i];
  }

  lemma NoPhraseWithoutC(s: string, tail: string, u: string)
    requires FreeOfC(s) && tail != ""
    ensures ReplaceAll(s, ['c'] + tail, u) == s
  {
    forall i | 0 <= i <= |s| ensures !OccursAt(s, ['c'] + tail, i) {
      if OccursAt(s, ['c'] + tail, i) { OccursFrom(s, ['c'] + tail, i); }
    }
    ReplaceNothing(s, ['c'] + tail, u);
  }

  /** A text has an empty normal form exactly when it has no letter, digit, plus, sharp or full stop. */
  lemma EmptyFormIff(value: string)
    ensures Normalize(value) == "" <==> forall i :: 0 <= i < |value| ==> !IsWord(LowerChar(value[i]))
  {
    var v := ToLower(Trim(value));
    var before, after := TrimSplits(value);
    if forall i :: 0 <= i < |value| ==> !IsWord(LowerChar(value[i])) {
      forall i | 0 <= i < |v| ensures !IsWord(v[i]) { assert value[|before| + i] == Trim(value)[i]; }
      NoWordForm(value, v);
    } else {
      var i :| 0 <= i < |value| && IsWord(LowerChar(value[i]));
      forall k | k in {i} && (value[k] in SPACES) ensures false { SpacesAreGaps(value[k]); }
      assert |before| <= i < |before| + |Trim(value)|;
      assert v[i - |before|] == LowerChar(value[i]);
      SomeWordForm(value, v, i - |before|);
    }
  }

  lemma NoWordForm(value: string, v: string)
    requires v == ToLower(Trim(value)) && forall i :: 0 <= i < |v| ==> !IsWord(v[i])
    ensures Normalize(value) == ""
  {
    hide ToLower, Trim;
    assert SHARP == ['c'] + SHARP_TAIL && PLUS == ['c'] + PLUS_TAIL;
    assert IsWord('c');
    NoPhraseWithoutC(v, SHARP_TAIL, "c#");
    NoPhraseWithoutC(v, PLUS_TAIL, "c++");
    NoWordToBlank(v);
    hide ReplaceAll, NonWordToSpace, IsWord;
    BlankHasNoFields();
  }

  lemma BlankHasNoFields()
    ensures Fields("") == [] && Fields(" ") == [] && Join([], ' ') == ""
  {}

  lemma {:induction false} ReplaceKeepsWord(s: string, t: string, u: string, i: int)
    requires t != "" && 0 <= i < |s| && IsWord(s[i])
    ensures exists k :: 0 <= k < |ReplaceAll(s, ['c'] + t, ['c'] + u)| && IsWord(ReplaceAll(s, ['c'] + t, ['c'] + u)[k])
  {
    var r := ReplaceAll(s, ['c'] + t, ['c'] + u);
    ReplaceStep(s, t, u);
    assert r[0] == s[0];
    if i > 0 && !IsWord(s[0]) {
      ReplaceKeepsWord(s[1..], t, u, i - 1);
      var k :| 0 <= k < |ReplaceAll(s[1..], ['c'] + t, ['c'] + u)| && IsWord(ReplaceAll(s[1..], ['c'] + t, ['c'] + u)[k]);
      assert IsWord(r[k + 1]);
    }
  }

  lemma {:induction false} BlankingKeepsSomeWord(s: string, i: int)
    requires 0 <= i < |s| && IsWord(s[i])
    ensures exists k :: 0 <= k < |NonWordToSpace(s)| && IsWord(NonWordToSpace(s)[k])
    decreases |s|
  {
    var r := NonWordToSpace(s);
    if IsWord(s[0]) {
      assert IsWord(r[0]);
    } else {
      Dropped(s[1..]);
      var d := DropNonWord(s[1..]);
      var gap := |s| - |d|;
      assert s == s[..gap] + d && forall k :: 0 <= k < gap ==> !IsWord(s[k]) by { GapIsNoWord(s); }
      BlankingKeepsSomeWord(d, i - gap);
      var k :| 0 <= k < |NonWordToSpace(d)| && IsWord(NonWordToSpace(d)[k]);
      assert r[k + 1] == NonWordToSpace(d)[k];
    }
  }

  lemma {:induction false} DropIsGap(s: string)
    ensures forall k :: 0 <= k < |s| - |DropNonWord(s)| ==> !IsWord(s[k])
    ensures s == s[..|s| - |DropNonWord(s)|] + DropNonWord(s)
  {
    if s != "" && !IsWord(s[0]) {
      DropIsGap(s[1..]);
      assert forall k :: 1 <= k < |s| ==> s[k] == s[1..][k - 1];
      assert s == [s[0]] + s[1..];
    }
  }

  lemma GapIsNoWord(s: string)
    requires s != "" && !IsWord(s[0])
    ensures var gap := |s| - |DropNonWord(s[1..])|; s == s[..gap] + DropNonWord(s[1..]) && forall k :: 0 <= k < gap ==> !IsWord(s[k])
  {
    DropIsGap(s[1..]);
    assert forall k :: 1 <= k < |s| ==> s[k] == s[1..][k - 1];
    assert s == [s[0]] + s[1..];
  }

  lemma OnlyBlanks(z: string, before: string, after: string)
    requires z == before + after && before in {"", " "} && after in {"", " "}
    ensures forall k :: 0 <= k < |z| ==> z[k] == ' '
  {}

  lemma SomeWordForm(value: string, v: string, i: int)
    requires v == ToLower(Trim(value)) && 0 <= i < |v| && IsWord(v[i])
    ensures Normalize(value) != ""
  {
    hide ToLower, Trim, IsWord;
    assert SHARP == ['c'] + SHARP_TAIL && PLUS == ['c'] + PLUS_TAIL && "c#" == ['c'] + "#" && "c++" == ['c'] + "++";
    ReplaceKeepsWord(v, SHARP_TAIL, "#", i);
    var first := ReplaceAll(v, SHARP, "c#");
    var k :| 0 <= k < |first| && IsWord(first[k]);
    ReplaceKeepsWord(first, PLUS_TAIL, "++", k);
    var w := Rewrite(v);
    hide ReplaceAll;
    var m :| 0 <= m < |w| && IsWord(w[m]);
    BlankingKeepsSomeWord(w, m);
    BlankedIsSingle(w);
    var z := NonWordToSpace(w);
    var before, after := JoinStrips(z);
    hide NonWordToSpace, Rewrite, Join, FieldsBy;
    BlankIsNoWord();
    if Join(Fields(z), ' ') == "" { OnlyBlanks(z, before, after); }
    var n :| 0 <= n < |z| && IsWord(z[n]);
  }

  const LETTERS := "abcdefghijklmnopqrstuvwxyz"

  lemma LetterIff(c: char)
    ensures 'a' <= c <= 'z' <==> c in LETTERS
  {
    if 'a' <= c <= 'z' { assert c == LETTERS[c as int - 'a' as int]; }
  }

  /** The characters a normal form keeps. */
  lemma WordIff(c: char)
    ensures IsWord(c) <==> c in LETTERS || c in DIGITS || c in {'+', '#', '.'}
  {
    LetterIff(c);
    DigitIff(c);
    assert IsWord(c) <==> 'a' <= c <= 'z' || IsDigit(c) || c in {'+', '#', '.'};
  }
}
