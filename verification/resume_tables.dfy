/** What `persistResumeIntelligence` makes of an extraction: one transaction that rewrites the rows of its
    resume and merges the rest. */
module ResumeTables {
  import opened Base
  import opened Text
  import opened Skills
  import opened Resume

  /** A row of one of the four replaced tables, apart from its id and timestamps. */
  datatype Row = Row(
    candidate: int, resume: int, title: string, texts: seq<string>, startDate: Option<string>, endDate: Option<string>,
    startYear: Option<int>, endYear: Option<int>, isCurrent: bool, technologies: seq<string>, sortOrder: int)

  datatype Profile = Profile(resume: int, currentTitle: string, summary: string, location: string, total: string, relevant: string)

  /** Expertise and language rows are keyed by what their unique index is on. */
  datatype Tables = Tables(
    profiles: map<int, Profile>,
    expertise: set<(int, string)>,
    languages: map<(int, Language), int>,
    rows: map<Kind, seq<Row>>)

  // ---- Single statements ----

  function RowsOf(rows: map<Kind, seq<Row>>, kind: Kind): seq<Row> { if kind in rows then rows[kind] else [] }

  predicate OfResume(r: Row, candidate: int, resume: int) { r.candidate == candidate && r.resume == resume }

  /** DELETE ... WHERE candidate_id AND source_resume_id */
  function Others(rows: seq<Row>, candidate: int, resume: int): seq<Row>
    decreases rows
  {
    if rows == [] then []
    else
      var init, last := Others(rows[..|rows| - 1], candidate, resume), rows[|rows| - 1];
      if OfResume(last, candidate, resume) then init else init + [last]
  }

  /** COALESCE(NULLIF(new, ''), old) */
  function Keep(given: string, stored: string): string { if given == "" then stored else given }

  function MergedProfile(stored: Option<Profile>, resume: int, r: Extraction): Profile {
    if stored.None? then Profile(resume, r.currentTitle, r.summary, r.location, r.totalExperience, r.relevantExperience)
    else Profile(resume, Keep(r.currentTitle, stored.value.currentTitle), Keep(r.summary, stored.value.summary),
                 Keep(r.location, stored.value.location), Keep(r.totalExperience, stored.value.total),
                 Keep(r.relevantExperience, stored.value.relevant))
  }

  function WithSkills(expertise: set<(int, string)>, candidate: int, skills: seq<string>): set<(int, string)> {
    expertise + set i | 0 <= i < |skills| :: (candidate, skills[i])
  }

  function LanguageKeys(candidate: int, ls: seq<Language>): set<(int, Language)> {
    set i | 0 <= i < |ls| && ls[i].name != "" :: (candidate, ls[i])
  }

  function WithLanguages(languages: map<(int, Language), int>, candidate: int, resume: int, ls: seq<Language>): map<(int, Language), int> {
    map k | k in languages.Keys + LanguageKeys(candidate, ls) :: if k in LanguageKeys(candidate, ls) then resume else languages[k]
  }

  function TrimAll(texts: seq<string>): seq<string> { seq(|texts|, i requires 0 <= i < |texts| => Trim(texts[i])) }

  /** The row of one entry; None where a date is no date. Certificates have no position. */
  function RowOf(kind: Kind, item: Item, position: int, candidate: int, resume: int): Option<Row> {
    var s, e := DateOf(item.startDate), DateOf(item.endDate);
    if s.None? || e.None? then None
    else Some(Row(candidate, resume, Trim(item.title), TrimAll(item.texts), s.value, e.value,
                  YearOf(item.startDate, item.startYear), YearOf(item.endDate, item.endYear),
                  kind == Employment && item.isCurrent,
                  if kind == Project then NormalizeSkills(item.technologies) else [],
                  if kind == Certification then 0 else position))
  }

  /** The rows of the first `n` entries: entries without a title are skipped, a bad date refuses them all. */
  function NewRows(kind: Kind, items: seq<Item>, n: nat, candidate: int, resume: int): Option<seq<Row>>
    requires n <= |items|
  {
    if n == 0 then Some([])
    else
      var init := NewRows(kind, items, n - 1, candidate, resume);
      if init.None? || Trim(items[n - 1].title) == "" then init
      else
        var row := RowOf(kind, items[n - 1], n - 1, candidate, resume);
        if row.None? then None else Some(init.value + [row.value])
  }

  function NewRowsOf(kind: Kind, r: Extraction, candidate: int, resume: int): Option<seq<Row>> {
    NewRows(kind, ItemsOf(r.items, kind), |ItemsOf(r.items, kind)|, candidate, resume)
  }

  const KINDS := {Employment, Education, Certification, Project}

  predicate DatesValid(r: Extraction, candidate: int, resume: int) {
    forall kind :: kind in KINDS ==> NewRowsOf(kind, r, candidate, resume).Some?
  }

  function Replaced(rows: map<Kind, seq<Row>>, kind: Kind, r: Extraction, candidate: int, resume: int): seq<Row> {
    var added := NewRowsOf(kind, r, candidate, resume);
    Others(RowsOf(rows, kind), candidate, resume) + if added.Some? then added.value else []
  }

  /** The transaction for an already normalised extraction. */
  function Stored(t: Tables, candidate: int, resume: int, r: Extraction): Tables {
    Tables(
      t.profiles[candidate := MergedProfile(Get(t.profiles, candidate), resume, r)],
      WithSkills(t.expertise, candidate, r.skills),
      WithLanguages(t.languages, candidate, resume, r.languages),
      AllReplaced(t.rows, r, candidate, resume))
  }

  /** The four replaced tables. */
  function AllReplaced(rows: map<Kind, seq<Row>>, r: Extraction, candidate: int, resume: int): map<Kind, seq<Row>> {
    map kind | kind in KINDS :: Replaced(rows, kind, r, candidate, resume)
  }

  /** `persistResumeIntelligence`: the tables after it; unchanged where it returns an error. */
  function Persisted(t: Tables, candidate: int, resume: int, r: Extraction, parses: string -> bool): Tables {
    var n := Normalized(r, parses);
    if !Acceptable(Trimmed(r), parses) || candidate <= 0 || !DatesValid(n, candidate, resume) then t else Stored(t, candidate, resume, n)
  }

  // ---- Persisting twice ----

  lemma {:induction false} OthersOfNew(kind: Kind, items: seq<Item>, n: nat, candidate: int, resume: int)
    requires n <= |items| && NewRows(kind, items, n, candidate, resume).Some?
    ensures Others(NewRows(kind, items, n, candidate, resume).value, candidate, resume) == []
  {
    hide RowOf, Trim;
    if n > 0 {
      OthersOfNew(kind, items, n - 1, candidate, resume);
      var init, all := NewRows(kind, items, n - 1, candidate, resume).value, NewRows(kind, items, n, candidate, resume).value;
      if all != init {
        assert all[..|all| - 1] == init;
        RowOfResume(kind, items[n - 1], n - 1, candidate, resume);
      }
    }
  }

  lemma RowOfResume(kind: Kind, item: Item, position: int, candidate: int, resume: int)
    requires RowOf(kind, item, position, candidate, resume).Some?
    ensures OfResume(RowOf(kind, item, position, candidate, resume).value, candidate, resume)
  {}

  lemma {:induction false} OthersOfSum(a: seq<Row>, b: seq<Row>, candidate: int, resume: int)
    ensures Others(a + b, candidate, resume) == Others(a, candidate, resume) + Others(b, candidate, resume)
    decreases b
  {
    if b == [] {
      assert a + b == a;
    } else {
      assert (a + b)[..|a + b| - 1] == a + b[..|b| - 1];
      OthersOfSum(a, b[..|b| - 1], candidate, resume);
    }
  }

  lemma {:induction false} OthersTwice(rows: seq<Row>, candidate: int, resume: int)
    ensures Others(Others(rows, candidate, resume), candidate, resume) == Others(rows, candidate, resume)
    decreases rows
  {
    if rows != [] {
      var n := |rows| - 1;
      OthersTwice(rows[..n], candidate, resume);
      if !OfResume(rows[n], candidate, resume) {
        var init, all := Others(rows[..n], candidate, resume), Others(rows, candidate, resume);
        assert all[..|all| - 1] == init;
      }
    }
  }

  lemma StoredRows(t: Tables, kind: Kind, r: Extraction, candidate: int, resume: int)
    requires kind in KINDS && NewRowsOf(kind, r, candidate, resume).Some?
    ensures RowsOf(Stored(t, candidate, resume, r).rows, kind)
            == Others(RowsOf(t.rows, kind), candidate, resume) + NewRowsOf(kind, r, candidate, resume).value
  {}

  lemma ReplacedTwice(t: Tables, kind: Kind, r: Extraction, candidate: int, resume: int)
    requires kind in KINDS && NewRowsOf(kind, r, candidate, resume).Some?
    ensures Replaced(Stored(t, candidate, resume, r).rows, kind, r, candidate, resume) == Replaced(t.rows, kind, r, candidate, resume)
  {
    var items, before := ItemsOf(r.items, kind), RowsOf(t.rows, kind);
    StoredRows(t, kind, r, candidate, resume);
    OthersOfNew(kind, items, |items|, candidate, resume);
    OthersOfSum(Others(before, candidate, resume), NewRowsOf(kind, r, candidate, resume).value, candidate, resume);
    OthersTwice(before, candidate, resume);
    hide NewRowsOf, Others, Stored, RowsOf;
  }

  lemma MergesTwice(t: Tables, candidate: int, resume: int, r: Extraction)
    ensures var x := Stored(t, candidate, resume, r);
            && MergedProfile(Get(x.profiles, candidate), resume, r) == MergedProfile(Get(t.profiles, candidate), resume, r)
            && WithSkills(x.expertise, candidate, r.skills) == x.expertise
            && WithLanguages(x.languages, candidate, resume, r.languages) == x.languages
  {}

  lemma StoringTwice(t: Tables, candidate: int, resume: int, n: Extraction)
    requires DatesValid(n, candidate, resume)
    ensures Stored(Stored(t, candidate, resume, n), candidate, resume, n) == Stored(t, candidate, resume, n)
  {
    MergesTwice(t, candidate, resume, n);
    AllReplacedTwice(t, candidate, resume, n);
    hide MergedProfile, WithSkills, WithLanguages, Replaced;
  }

  /** Persisting the same extraction of the same resume a second time leaves the tables as once does. */
  lemma PersistingTwice(t: Tables, candidate: int, resume: int, r: Extraction, parses: string -> bool)
    ensures var x := Persisted(t, candidate, resume, r, parses); Persisted(x, candidate, resume, r, parses) == x
  {
    var n := Normalized(r, parses);
    hide Normalized, Acceptable, Trimmed, DatesValid, Stored;
    if DatesValid(n, candidate, resume) { StoringTwice(t, candidate, resume, n); }
  }

  lemma AllReplacedTwice(t: Tables, candidate: int, resume: int, r: Extraction)
    requires DatesValid(r, candidate, resume)
    ensures forall kind :: kind in KINDS ==>
              Replaced(Stored(t, candidate, resume, r).rows, kind, r, candidate, resume) == Replaced(t.rows, kind, r, candidate, resume)
  {
    hide NewRowsOf, Replaced, Stored;
    forall kind | kind in KINDS
      ensures Replaced(Stored(t, candidate, resume, r).rows, kind, r, candidate, resume) == Replaced(t.rows, kind, r, candidate, resume)
    {
      ReplacedTwice(t, kind, r, candidate, resume);
    }
  }

  // ---- Whose rows change, and what a year column may hold ----

  /** Rows of another resume, or of another candidate, stay in the four replaced tables, in their order, and no
      other such row appears. */
  lemma OtherResumesUntouched(t: Tables, candidate: int, resume: int, r: Extraction, parses: string -> bool, kind: Kind, c: int, d: int)
    requires (c != candidate || d != resume) && kind in KINDS
    ensures Mine(RowsOf(Persisted(t, candidate, resume, r, parses).rows, kind), c, d) == Mine(RowsOf(t.rows, kind), c, d)
  {
    var n := Normalized(r, parses);
    hide Normalized, Acceptable, Trimmed, Stored, RowsOf, NewRowsOf, Mine, Others;
    if Persisted(t, candidate, resume, r, parses) != t {
      assert NewRowsOf(kind, n, candidate, resume).Some?;
      StoredRows(t, kind, n, candidate, resume);
      MineOfSum(Others(RowsOf(t.rows, kind), candidate, resume), NewRowsOf(kind, n, candidate, resume).value, c, d);
      MineOfOthers(RowsOf(t.rows, kind), candidate, resume, c, d);
      MineOfNew(kind, n, candidate, resume, c, d);
    }
  }

  /** The rows of one resume, in order. */
  function Mine(rows: seq<Row>, candidate: int, resume: int): seq<Row>
    decreases rows
  {
    if rows == [] then []
    else
      var init, last := Mine(rows[..|rows| - 1], candidate, resume), rows[|rows| - 1];
      if OfResume(last, candidate, resume) then init + [last] else init
  }

  lemma {:induction false} MineOfSum(a: seq<Row>, b: seq<Row>, c: int, d: int)
    ensures Mine(a + b, c, d) == Mine(a, c, d) + Mine(b, c, d)
    decreases b
  {
    if b == [] {
      assert a + b == a;
    } else {
      assert (a + b)[..|a + b| - 1] == a + b[..|b| - 1];
      MineOfSum(a, b[..|b| - 1], c, d);
    }
  }

  lemma {:induction false} MineOfOthers(rows: seq<Row>, candidate: int, resume: int, c: int, d: int)
    requires c != candidate || d != resume
    ensures Mine(Others(rows, candidate, resume), c, d) == Mine(rows, c, d)
    decreases rows
  {
    if rows != [] {
      var n := |rows| - 1;
      MineOfOthers(rows[..n], candidate, resume, c, d);
      var init, all := Others(rows[..n], candidate, resume), Others(rows, candidate, resume);
      assert all != init ==> all[..|all| - 1] == init;
    }
  }

  lemma MineOfNew(kind: Kind, r: Extraction, candidate: int, resume: int, c: int, d: int)
    requires (c != candidate || d != resume) && NewRowsOf(kind, r, candidate, resume).Some?
    ensures Mine(NewRowsOf(kind, r, candidate, resume).value, c, d) == []
  {
    var items := ItemsOf(r.items, kind);
    var added := NewRowsOf(kind, r, candidate, resume).value;
    OthersOfNew(kind, items, |items|, candidate, resume);
    MineOfOthers(added, candidate, resume, c, d);
    hide NewRowsOf;
  }

  /** Every stored year is null or in range. */
  predicate YearOk(y: Option<int>) { y.None? || MIN_YEAR <= y.value <= MAX_YEAR }

  ghost predicate YearsOk(rows: seq<Row>) {
    forall i :: 0 <= i < |rows| ==> YearOk(rows[i].startYear) && YearOk(rows[i].endYear)
  }

  lemma {:induction false} OthersAreRows(rows: seq<Row>, candidate: int, resume: int)
    requires YearsOk(rows)
    ensures YearsOk(Others(rows, candidate, resume))
    decreases rows
  {
    if rows != [] { OthersAreRows(rows[..|rows| - 1], candidate, resume); }
  }

  lemma {:induction false} NewYearsOk(kind: Kind, items: seq<Item>, n: nat, candidate: int, resume: int)
    requires n <= |items| && NewRows(kind, items, n, candidate, resume).Some?
    requires forall i :: 0 <= i < |items| ==> YearsValid(items[i])
    ensures YearsOk(NewRows(kind, items, n, candidate, resume).value)
  {
    hide Trim, DateOf, YearOf, TrimAll;
    if n > 0 {
      NewYearsOk(kind, items, n - 1, candidate, resume);
      StoredYearsInRange(items[n - 1].startDate, items[n - 1].startYear);
      StoredYearsInRange(items[n - 1].endDate, items[n - 1].endYear);
    }
  }

  /** In tables where it holds, persisting keeps every year column null or within 1900 to 2200. */
  lemma StoredYearsStayInRange(t: Tables, candidate: int, resume: int, r: Extraction, parses: string -> bool, kind: Kind)
    requires kind in KINDS && YearsOk(RowsOf(t.rows, kind))
    ensures YearsOk(RowsOf(Persisted(t, candidate, resume, r, parses).rows, kind))
  {
    var n := Normalized(r, parses);
    assert n.items == r.items;
    if Persisted(t, candidate, resume, r, parses) != t {
      assert AllYearsValid(r.items);
      hide Normalized, Acceptable, Trimmed, Stored, Others, NewRows;
      assert NewRowsOf(kind, n, candidate, resume).Some?;
      StoredRows(t, kind, n, candidate, resume);
      OthersAreRows(RowsOf(t.rows, kind), candidate, resume);
      NewYearsOk(kind, ItemsOf(n.items, kind), |ItemsOf(n.items, kind)|, candidate, resume);
    }
  }

  /** Entries whose explicit years passed validation are stored start before end. */
  lemma ExplicitYearsStayOrdered(kind: Kind, item: Item, position: int, candidate: int, resume: int)
    requires YearsValid(item) && item.startYear != 0 && item.endYear != 0
    ensures var row := RowOf(kind, item, position, candidate, resume);
            row.Some? ==> row.value.startYear.Some? && row.value.endYear.Some? && row.value.startYear.value <= row.value.endYear.value
  {
    hide Trim, DateOf, TrimAll;
  }

  /** Stored entries keep the order of the extraction, and each position is that of the entry it came from. */
  lemma {:induction false} RowsKeepPositions(kind: Kind, items: seq<Item>, n: nat, candidate: int, resume: int)
    requires n <= |items| && kind != Certification && NewRows(kind, items, n, candidate, resume).Some?
    ensures var rows := NewRows(kind, items, n, candidate, resume).value;
            && (forall i :: 0 <= i < |rows| ==> 0 <= rows[i].sortOrder < n && rows[i].title == Trim(items[rows[i].sortOrder].title) != "")
            && (forall i, j :: 0 <= i < j < |rows| ==> rows[i].sortOrder < rows[j].sortOrder)
  {
    hide Trim, DateOf, YearOf, TrimAll, NormalizeSkills;
    if n > 0 { RowsKeepPositions(kind, items, n - 1, candidate, resume); }
  }

  // ---- What is stored of an extraction ----

  /** A blank text of a new extraction keeps what an earlier one gave; any other replaces it. */
  lemma ProfileOutcome(stored: Option<Profile>, resume: int, r: Extraction)
    ensures var m := MergedProfile(stored, resume, r);
            && m.resume == resume
            && (r.currentTitle != "" ==> m.currentTitle == r.currentTitle) && (r.summary != "" ==> m.summary == r.summary)
            && (r.location != "" ==> m.location == r.location) && (r.totalExperience != "" ==> m.total == r.totalExperience)
            && (r.relevantExperience != "" ==> m.relevant == r.relevantExperience)
            && (stored.Some? ==>
                  && (r.currentTitle == "" ==> m.currentTitle == stored.value.currentTitle)
                  && (r.summary == "" ==> m.summary == stored.value.summary) && (r.location == "" ==> m.location == stored.value.location)
                  && (r.totalExperience == "" ==> m.total == stored.value.total)
                  && (r.relevantExperience == "" ==> m.relevant == stored.value.relevant))
            && (stored.None? ==>
                  && (r.currentTitle == "" ==> m.currentTitle == "") && (r.summary == "" ==> m.summary == "")
                  && (r.location == "" ==> m.location == "") && (r.totalExperience == "" ==> m.total == "")
                  && (r.relevantExperience == "" ==> m.relevant == ""))
  {}

  /** The row of an entry: trimmed texts in order, the two dates and years, and what only its kind has. */
  lemma RowOutcome(kind: Kind, item: Item, position: int, candidate: int, resume: int)
    ensures var row := RowOf(kind, item, position, candidate, resume);
            && (row.None? <==> DateOf(item.startDate).None? || DateOf(item.endDate).None?)
            && (row.Some? ==>
                  && row.value.candidate == candidate && row.value.resume == resume && row.value.title == Trim(item.title)
                  && |row.value.texts| == |item.texts| && (forall i :: 0 <= i < |item.texts| ==> row.value.texts[i] == Trim(item.texts[i]))
                  && Some(row.value.startDate) == DateOf(item.startDate) && Some(row.value.endDate) == DateOf(item.endDate)
                  && row.value.startYear == YearOf(item.startDate, item.startYear) && row.value.endYear == YearOf(item.endDate, item.endYear)
                  && (row.value.isCurrent <==> kind == Employment && item.isCurrent)
                  && (kind == Project ==> row.value.technologies == NormalizeSkills(item.technologies))
                  && (kind != Project ==> row.value.technologies == [])
                  && row.value.sortOrder == if kind == Certification then 0 else position)
  {
    hide Trim, DateOf, YearOf, NormalizeSkills;
  }

  /** Exactly the entries with a title are stored, one row each. */
  lemma {:induction false} RowsOfTitledEntries(kind: Kind, items: seq<Item>, n: nat, candidate: int, resume: int)
    requires n <= |items| && NewRows(kind, items, n, candidate, resume).Some?
    ensures forall row :: row in NewRows(kind, items, n, candidate, resume).value <==>
                          exists i :: 0 <= i < n && Trim(items[i].title) != "" && RowOf(kind, items[i], i, candidate, resume) == Some(row)
  {
    hide Trim, RowOf;
    if n > 0 {
      RowsOfTitledEntries(kind, items, n - 1, candidate, resume);
      var all, init := NewRows(kind, items, n, candidate, resume).value, NewRows(kind, items, n - 1, candidate, resume).value;
      if Trim(items[n - 1].title) != "" {
        var last := RowOf(kind, items[n - 1], n - 1, candidate, resume).value;
        assert all == init + [last];
        assert forall row :: row in all <==> row in init || row == last;
      }
    }
  }

  /** The whole transaction, for an accepted extraction: the candidate's profile, his skills and named languages,
      and in each of the four histories the rows of this resume replaced by the new ones. */
  lemma PersistedOutcome(t: Tables, candidate: int, resume: int, r: Extraction, parses: string -> bool)
    ensures var x, n := Persisted(t, candidate, resume, r, parses), Normalized(r, parses);
            && (!Acceptable(Trimmed(r), parses) || candidate <= 0 || !DatesValid(n, candidate, resume) ==> x == t)
            && (Acceptable(Trimmed(r), parses) && candidate > 0 && DatesValid(n, candidate, resume) ==>
                  && x.profiles == t.profiles[candidate := MergedProfile(Get(t.profiles, candidate), resume, n)]
                  && (forall k :: k in x.expertise <==> k in t.expertise || (k.0 == candidate && k.1 in n.skills))
                  && (forall k :: k in x.languages <==> k in t.languages || (k.0 == candidate && k.1 in n.languages && k.1.name != ""))
                  && (forall k :: k in x.languages ==>
                        x.languages[k] == if k.0 == candidate && k.1 in n.languages && k.1.name != "" then resume else t.languages[k])
                  && x.rows.Keys == KINDS
                  && (forall kind :: kind in KINDS ==>
                        Mine(x.rows[kind], candidate, resume) == NewRowsOf(kind, n, candidate, resume).value))
  {
    var x, n := Persisted(t, candidate, resume, r, parses), Normalized(r, parses);
    hide Normalized, Acceptable, Trimmed, MergedProfile, NewRowsOf, Others, Mine;
    if Acceptable(Trimmed(r), parses) && candidate > 0 && DatesValid(n, candidate, resume) {
      forall kind | kind in KINDS ensures Mine(x.rows[kind], candidate, resume) == NewRowsOf(kind, n, candidate, resume).value {
        MineAfter(t, kind, n, candidate, resume);
      }
    }
  }

  lemma MineAfter(t: Tables, kind: Kind, n: Extraction, candidate: int, resume: int)
    requires kind in KINDS && NewRowsOf(kind, n, candidate, resume).Some?
    ensures Mine(Replaced(t.rows, kind, n, candidate, resume), candidate, resume) == NewRowsOf(kind, n, candidate, resume).value
  {
    var kept, added := Others(RowsOf(t.rows, kind), candidate, resume), NewRowsOf(kind, n, candidate, resume).value;
    MineOfSum(kept, added, candidate, resume);
    NoneAreMine(RowsOf(t.rows, kind), candidate, resume);
    AllNewAreMine(kind, ItemsOf(n.items, kind), |ItemsOf(n.items, kind)|, candidate, resume);
    hide Others, Mine, NewRows;
    assert [] + added == added;
  }

  lemma {:induction false} NoneAreMine(rows: seq<Row>, candidate: int, resume: int)
    ensures Mine(Others(rows, candidate, resume), candidate, resume) == []
    decreases rows
  {
    if rows != [] {
      var n := |rows| - 1;
      NoneAreMine(rows[..n], candidate, resume);
      var init, all := Others(rows[..n], candidate, resume), Others(rows, candidate, resume);
      assert all != init ==> all[..|all| - 1] == init;
    }
  }

  lemma {:induction false} AllNewAreMine(kind: Kind, items: seq<Item>, n: nat, candidate: int, resume: int)
    requires n <= |items| && NewRows(kind, items, n, candidate, resume).Some?
    ensures Mine(NewRows(kind, items, n, candidate, resume).value, candidate, resume) == NewRows(kind, items, n, candidate, resume).value
  {
    hide RowOf, Trim;
    if n > 0 {
      AllNewAreMine(kind, items, n - 1, candidate, resume);
      var init, all := NewRows(kind, items, n - 1, candidate, resume).value, NewRows(kind, items, n, candidate, resume).value;
      if all != init {
        assert all[..|all| - 1] == init;
        RowOfResume(kind, items[n - 1], n - 1, candidate, resume);
      }
    }
  }
}
