/** Normalisation in place and persistence of an extraction, as the code runs them. */
module ResumeStore {
  import opened Base
  import opened Text
  import opened Skills
  import opened Resume
  import opened ResumeTables

  /** The extraction a normalisation works on. */
  class ResumeResult {
    var value: Extraction

    constructor (r: Extraction)
      ensures value == r
    {
      value := r;
    }

    /** `normalizeResumeAI`; on an error the argument keeps what was already rewritten. */
    method Normalize(parses: string -> bool) returns (ok: bool)
      modifies this
      ensures ok <==> Acceptable(Trimmed(old(value)), parses)
      ensures value == Normalized(old(value), parses)
    {
      hide NormalizeSkills, Trim, YearsValid;
      value := value.(name := Trim(value.name), email := Trim(value.email), phone := Trim(value.phone), location := Trim(value.location));
      value := value.(currentTitle := Trim(value.currentTitle), summary := Trim(value.summary));
      value := value.(totalExperience := Trim(value.totalExperience), relevantExperience := Trim(value.relevantExperience));
      var skills := NormalizeTechnicalSkills(value.skills);
      value := value.(skills := skills);
      if value.email != "" && !parses(value.email) { return false; }
      var kinds := [Employment, Education, Certification, Project];
      for k := 0 to |kinds|
        invariant value == Trimmed(old(value))
        invariant forall j, i :: 0 <= j < k && 0 <= i < |ItemsOf(value.items, kinds[j])| ==> YearsValid(ItemsOf(value.items, kinds[j])[i])
      {
        var valid := ValidateYears(ItemsOf(value.items, kinds[k]));
        if !valid {
          ghost var i :| 0 <= i < |ItemsOf(value.items, kinds[k])| && !YearsValid(ItemsOf(value.items, kinds[k])[i]);
          return false;
        }
      }
      EveryKind(value.items, kinds);
      NormalizeLanguages();
      ok := true;
    }

    /** One of the four validation loops. */
    method ValidateYears(items: seq<Item>) returns (ok: bool)
      ensures ok <==> forall i :: 0 <= i < |items| ==> YearsValid(items[i])
    {
      for i := 0 to |items|
        invariant forall k :: 0 <= k < i ==> YearsValid(items[k])
      {
        var item := items[i];
        if item.startYear != 0 && (item.startYear < MIN_YEAR || item.startYear > MAX_YEAR) { return false; }
        if item.endYear != 0 && (item.endYear < MIN_YEAR || item.endYear > MAX_YEAR) { return false; }
        if item.startYear != 0 && item.endYear != 0 && item.endYear < item.startYear { return false; }
      }
      ok := true;
    }

    method NormalizeLanguages()
      modifies this
      ensures value == old(value).(languages := TrimLanguages(old(value).languages))
    {
      hide Trim;
      var ls := value.languages;
      for i := 0 to |ls|
        invariant |ls| == |value.languages| && value == old(value)
        invariant forall k :: 0 <= k < i ==> ls[k] == TrimLanguage(value.languages[k])
        invariant forall k :: i <= k < |ls| ==> ls[k] == value.languages[k]
      {
        var l := Language(Trim(ls[i].name), Trim(ls[i].framework), Trim(ls[i].level));
        if l.framework == "" { l := l.(framework := UNSPECIFIED); }
        if l.level == "" { l := l.(level := UNSPECIFIED); }
        ls := ls[i := l];
      }
      hide TrimLanguage;
      assert ls == TrimLanguages(value.languages);
      value := value.(languages := ls);
    }
  }

  lemma EveryKind(items: map<Kind, seq<Item>>, kinds: seq<Kind>)
    requires kinds == [Employment, Education, Certification, Project]
    requires forall j, i :: 0 <= j < |kinds| && 0 <= i < |ItemsOf(items, kinds[j])| ==> YearsValid(ItemsOf(items, kinds[j])[i])
    ensures AllYearsValid(items)
  {
    hide YearsValid;
    forall kind, i | kind in items && 0 <= i < |items[kind]| ensures YearsValid(items[kind][i]) {
      assert kinds[0] == Employment && kinds[1] == Education && kinds[2] == Certification && kinds[3] == Project;
      var j := if kind == Employment then 0 else if kind == Education then 1 else if kind == Certification then 2 else 3;
      assert kinds[j] == kind && ItemsOf(items, kinds[j]) == items[kind];
    }
  }

  /** The six tables an extraction is stored in. */
  class ResumeDb {
    var tables: Tables

    /** The DELETE of one of the four tables: the rows of other resumes stay. */
    method DeleteRows(rows: seq<Row>, candidate: int, resume: int) returns (kept: seq<Row>)
      ensures kept == Others(rows, candidate, resume)
    {
      kept := [];
      for i := 0 to |rows|
        invariant kept == Others(rows[..i], candidate, resume)
      {
        assert rows[..i + 1][..i] == rows[..i];
        if !OfResume(rows[i], candidate, resume) { kept := kept + [rows[i]]; }
      }
      assert rows[..|rows|] == rows;
    }

    /** One of the four insertion loops; None where a date is no date. */
    method InsertRows(kind: Kind, items: seq<Item>, candidate: int, resume: int) returns (added: Option<seq<Row>>)
      ensures added == NewRows(kind, items, |items|, candidate, resume)
    {
      hide Trim, DateOf, YearOf, TrimAll, NormalizeSkills;
      var rows: seq<Row> := [];
      for i := 0 to |items|
        invariant NewRows(kind, items, i, candidate, resume) == Some(rows)
      {
        var item := items[i];
        assert NewRows(kind, items, i + 1, candidate, resume) == NewStep(rows, kind, item, i, candidate, resume);
        if Trim(item.title) == "" { continue; }
        var startDate := DateOf(item.startDate);
        if startDate.None? {
          RefusedStays(kind, items, i + 1, |items|, candidate, resume);
          return None;
        }
        var endDate := DateOf(item.endDate);
        if endDate.None? {
          RefusedStays(kind, items, i + 1, |items|, candidate, resume);
          return None;
        }
        var technologies := [];
        if kind == Project { technologies := NormalizeTechnicalSkills(item.technologies); }
        rows := rows + [Row(candidate, resume, Trim(item.title), TrimAll(item.texts), startDate.value, endDate.value,
                            YearOf(item.startDate, item.startYear), YearOf(item.endDate, item.endYear),
                            kind == Employment && item.isCurrent, technologies, if kind == Certification then 0 else i)];
      }
      added := Some(rows);
    }

    /** The expertise loop. */
    method UpsertSkills(expertise: set<(int, string)>, candidate: int, skills: seq<string>) returns (after: set<(int, string)>)
      ensures after == WithSkills(expertise, candidate, skills)
    {
      after := expertise;
      for i := 0 to |skills|
        invariant after == WithSkills(expertise, candidate, skills[..i])
      {
        assert skills[..i + 1] == skills[..i] + [skills[i]];
        SkillsOfMore(expertise, candidate, skills[..i], skills[i]);
        after := after + {(candidate, skills[i])};
      }
      assert skills[..|skills|] == skills;
    }

    /** The language loop; an entry without a name is skipped. */
    method UpsertLanguages(languages: map<(int, Language), int>, candidate: int, resume: int, ls: seq<Language>)
      returns (after: map<(int, Language), int>)
      ensures after == WithLanguages(languages, candidate, resume, ls)
    {
      after := languages;
      assert LanguageKeys(candidate, ls[..0]) == {};
      for i := 0 to |ls|
        invariant after == WithLanguages(languages, candidate, resume, ls[..i])
      {
        assert ls[..i + 1] == ls[..i] + [ls[i]];
        LanguagesOfMore(languages, candidate, resume, ls[..i], ls[i]);
        if ls[i].name == "" { continue; }
        after := after[(candidate, ls[i]) := resume];
      }
      assert ls[..|ls|] == ls;
    }

    /** The four deletions and insertion loops; None where one of them fails. */
    method ReplaceRows(n: Extraction, candidate: int, resume: int) returns (rows: Option<map<Kind, seq<Row>>>)
      ensures rows.Some? <==> DatesValid(n, candidate, resume)
      ensures rows.Some? ==> rows.value == AllReplaced(tables.rows, n, candidate, resume)
    {
      hide NewRows, Others;
      var after: map<Kind, seq<Row>> := map[];
      var todo := KINDS;
      while todo != {}
        invariant after.Keys == KINDS - todo && todo <= KINDS
        invariant forall kind :: kind in after ==> NewRowsOf(kind, n, candidate, resume).Some?
        invariant forall kind :: kind in after ==> after[kind] == Replaced(tables.rows, kind, n, candidate, resume)
        decreases |todo|
      {
        var kind :| kind in todo;
        var kept := DeleteRows(RowsOf(tables.rows, kind), candidate, resume);
        var added := InsertRows(kind, ItemsOf(n.items, kind), candidate, resume);
        if added.None? {
          assert NewRowsOf(kind, n, candidate, resume).None?;
          return None;
        }
        after := after[kind := kept + added.value];
        todo := todo - {kind};
      }
      hide Replaced, NewRowsOf;
      assert after == AllReplaced(tables.rows, n, candidate, resume);
      rows := Some(after);
    }

    /** `persistResumeIntelligence`: everything is worked out and then committed at once. */
    method PersistResumeIntelligence(candidate: int, resume: int, r: Extraction, parses: string -> bool) returns (ok: bool)
      modifies this
      ensures tables == Persisted(old(tables), candidate, resume, r, parses)
      ensures ok <==> Acceptable(Trimmed(r), parses) && candidate > 0 && DatesValid(Normalized(r, parses), candidate, resume)
    {
      hide Normalized, Acceptable, Trimmed, AllReplaced, DatesValid, WithSkills, WithLanguages, MergedProfile;
      var ai := new ResumeResult(r);
      ok := ai.Normalize(parses);
      if !ok || candidate <= 0 { return false; }
      var n := ai.value;
      var rows := ReplaceRows(n, candidate, resume);
      if rows.None? { return false; }
      var expertise := UpsertSkills(tables.expertise, candidate, n.skills);
      var languages := UpsertLanguages(tables.languages, candidate, resume, n.languages);
      var profile := MergedProfile(Get(tables.profiles, candidate), resume, n);
      tables := Tables(tables.profiles[candidate := profile], expertise, languages, rows.value);
      ok := true;
    }
  }

  function NewStep(rows: seq<Row>, kind: Kind, item: Item, i: int, candidate: int, resume: int): Option<seq<Row>> {
    if Trim(item.title) == "" then Some(rows)
    else
      var row := RowOf(kind, item, i, candidate, resume);
      if row.None? then None else Some(rows + [row.value])
  }

  lemma {:induction false} RefusedStays(kind: Kind, items: seq<Item>, i: nat, n: nat, candidate: int, resume: int)
    requires i <= n <= |items| && NewRows(kind, items, i, candidate, resume).None?
    ensures NewRows(kind, items, n, candidate, resume).None?
  {
    if i < n { RefusedStays(kind, items, i, n - 1, candidate, resume); }
  }

  lemma SkillsOfMore(expertise: set<(int, string)>, candidate: int, skills: seq<string>, skill: string)
    ensures WithSkills(expertise, candidate, skills + [skill]) == WithSkills(expertise, candidate, skills) + {(candidate, skill)}
  {
    var more := skills + [skill];
    assert more[|skills|] == skill && forall i :: 0 <= i < |skills| ==> more[i] == skills[i];
  }

  lemma LanguagesOfMore(languages: map<(int, Language), int>, candidate: int, resume: int, ls: seq<Language>, l: Language)
    ensures var m := WithLanguages(languages, candidate, resume, ls);
            WithLanguages(languages, candidate, resume, ls + [l]) == if l.name == "" then m else m[(candidate, l) := resume]
  {
    var more := ls + [l];
    assert more[|ls|] == l && forall i :: 0 <= i < |ls| ==> more[i] == ls[i];
    assert LanguageKeys(candidate, more) == LanguageKeys(candidate, ls) + if l.name == "" then {} else {(candidate, l)};
  }
}
