/** The schema initializer as the code runs it: the directory is read, sorted and checked, and what is
    missing is applied. */
module SchemaStore {
  import opened Base
  import opened Schema
  import opened Text

  /** A directory entry. */
  datatype File = File(name: string, isDir: bool, sum: string)

  /** The largest version number `strconv.Atoi` accepts. */
  const MAX_INT: int := 0x7FFF_FFFF_FFFF_FFFF

  /** The sequence number a file name starts with. */
  function VersionOf(name: string): Option<int> {
    var n := Digits(name);
    if n == 0 || n == |name| || name[n] != '_' || Number(name[..n]) > MAX_INT then None else Some(Number(name[..n]))
  }

  const SQL := ".sql"

  predicate IsDefinition(f: File) { !f.isDir && |f.name| >= 4 && f.name[|f.name| - 4..] == SQL }

  predicate Numbered(f: File) { VersionOf(f.name).Some? }

  function DefOf(f: File): Def
    requires Numbered(f)
  {
    Def(VersionOf(f.name).value, f.name, f.sum)
  }

  predicate Defines(f: File, d: Def) { IsDefinition(f) && Numbered(f) && DefOf(f) == d }

  datatype DiscoveryError = BadPrefix(name: string) | Duplicate(version: int, prior: string, name: string)

  /** `sort.Slice` by version. */
  function Insert(defs: seq<Def>, d: Def): seq<Def> {
    if defs == [] || d.version < defs[0].version then [d] + defs else [defs[0]] + Insert(defs[1..], d)
  }

  function Sort(defs: seq<Def>): seq<Def> {
    if defs == [] then [] else Insert(Sort(defs[1..]), defs[0])
  }

  lemma {:induction false} InsertFacts(defs: seq<Def>, d: Def)
    requires Ordered(defs) && forall i :: 0 <= i < |defs| ==> defs[i].version != d.version
    ensures Ordered(Insert(defs, d))
    ensures forall e :: e in Insert(defs, d) <==> e == d || e in defs
  {
    if defs != [] && d.version >= defs[0].version {
      InsertFacts(defs[1..], d);
      var rest := Insert(defs[1..], d);
      forall i | 0 <= i < |rest| ensures defs[0].version < rest[i].version { assert rest[i] in rest; }
    }
  }

  lemma {:induction false} SortFacts(defs: seq<Def>)
    requires Distinct(defs)
    ensures Ordered(Sort(defs)) && forall e :: e in Sort(defs) <==> e in defs
  {
    if defs != [] {
      SortFacts(defs[1..]);
      forall i | 0 <= i < |Sort(defs[1..])| ensures Sort(defs[1..])[i].version != defs[0].version {
        assert Sort(defs[1..])[i] in defs[1..];
      }
      InsertFacts(Sort(defs[1..]), defs[0]);
    }
  }

  lemma {:induction false} InsertKeepsLength(defs: seq<Def>, d: Def)
    ensures |Insert(defs, d)| == |defs| + 1
  {
    if defs != [] && d.version >= defs[0].version { InsertKeepsLength(defs[1..], d); }
  }

  lemma {:induction false} SortKeepsLength(defs: seq<Def>)
    ensures |Sort(defs)| == |defs|
  {
    if defs != [] {
      SortKeepsLength(defs[1..]);
      InsertKeepsLength(Sort(defs[1..]), defs[0]);
    }
  }

  /** The first `n` entries give exactly these definitions, each with a version of its own. */
  ghost predicate Read(entries: seq<File>, n: nat, files: seq<Def>) {
    && n <= |entries|
    && (forall i :: 0 <= i < n && IsDefinition(entries[i]) ==> Numbered(entries[i]) && DefOf(entries[i]) in files)
    && (forall d :: d in files ==> exists i :: 0 <= i < n && Defines(entries[i], d))
    && (forall i, j :: 0 <= i < j < n && IsDefinition(entries[i]) && IsDefinition(entries[j]) ==>
          VersionOf(entries[i].name) != VersionOf(entries[j].name))
    && Distinct(files)
  }

  /** A directory is readable exactly when every definition file is numbered, no number twice. */
  ghost predicate Readable(entries: seq<File>) {
    && (forall i :: 0 <= i < |entries| && IsDefinition(entries[i]) ==> Numbered(entries[i]))
    && (forall i, j :: 0 <= i < j < |entries| && IsDefinition(entries[i]) && IsDefinition(entries[j]) ==>
          VersionOf(entries[i].name) != VersionOf(entries[j].name))
  }

  predicate HasVersion(f: File, v: int) { IsDefinition(f) && VersionOf(f.name) == Some(v) }

  method DiscoverSchemaDefinitions(entries: seq<File>) returns (r: Result<seq<Def>, DiscoveryError>)
    ensures r.Ok? <==> Readable(entries)
    ensures r.Ok? ==> Ordered(r.value)
    ensures r.Ok? ==> forall d :: d in r.value <==>
                        exists i :: 0 <= i < |entries| && Defines(entries[i], d)
    ensures r.Ok? ==> |r.value| <= |entries|
  {
    var files: seq<Def>, seen: map<int, int> := [], map[];
    hide IsDefinition, VersionOf;
    for k := 0 to |entries|
      invariant Read(entries, k, files) && |files| <= k
      invariant forall v :: v in seen ==> 0 <= seen[v] < k
      invariant forall v :: v in seen ==> HasVersion(entries[seen[v]], v)
      invariant forall d :: d in files ==> d.version in seen
    {
      var e := entries[k];
      if IsDefinition(e) {
        var version := VersionOf(e.name);
        if version.None? { return Err(BadPrefix(e.name)); }
        if version.value in seen {
          var prior := seen[version.value];
          assert HasVersion(entries[prior], version.value) && HasVersion(entries[k], version.value);
          return Err(Duplicate(version.value, entries[prior].name, e.name));
        }
        ReadMore(entries, k, files);
        seen := seen[version.value := k];
        files := files + [DefOf(e)];
      }
    }
    SortFacts(files);
    SortKeepsLength(files);
    r := Ok(Sort(files));
  }

  lemma ReadMore(entries: seq<File>, k: nat, files: seq<Def>)
    requires k < |entries| && Read(entries, k, files) && IsDefinition(entries[k]) && Numbered(entries[k])
    requires forall d :: d in files ==> d.version != VersionOf(entries[k].name).value
    ensures Read(entries, k + 1, files + [DefOf(entries[k])])
  {
    hide IsDefinition, VersionOf;
    var more := files + [DefOf(entries[k])];
    forall i, j | 0 <= i < j < |more| ensures more[i].version != more[j].version { assert files[i] in files; }
  }

  // ---- Check and apply ----

  /** Recording these definitions one after the other. */
  function Extended(recorded: Versions, defs: seq<Def>): Versions
    decreases defs
  {
    if defs == [] then recorded else Extended(recorded, defs[..|defs| - 1])[defs[|defs| - 1].version := defs[|defs| - 1]]
  }

  ghost predicate Keyed(recorded: Versions) { forall v :: v in recorded ==> recorded[v].version == v }

  lemma {:induction false} ToMapKeyed(files: seq<Def>)
    ensures Keyed(ToMap(files))
    decreases files
  {
    if files != [] { ToMapKeyed(files[..|files| - 1]); }
  }

  /** How many definitions fit the table before the first that does not. */
  function Leading(defs: seq<Def>): (n: nat)
    ensures n <= |defs|
  {
    if defs == [] || !Recordable(defs[0]) then 0 else 1 + Leading(defs[1..])
  }

  /** Without a fault a start gets through exactly when every missing definition fits the table. */
  lemma {:induction false} LeadingIff(defs: seq<Def>)
    ensures Leading(defs) == |defs| <==> forall d :: d in defs ==> Recordable(d)
  {
    if defs != [] {
      LeadingIff(defs[1..]);
      assert forall d :: d in defs <==> d == defs[0] || d in defs[1..];
    }
  }

  /** What applying the first `k` missing definitions leaves. */
  ghost predicate AppliedSoFar(found: Versions, before: seq<Def>, todo: seq<Def>, k: nat, recorded: Versions, effects: seq<Def>) {
    && k <= |todo| && effects == before + todo[..k] && recorded == Extended(found, todo[..k])
    && Leading(todo) == k + Leading(todo[k..])
  }

  lemma NothingApplied(found: Versions, before: seq<Def>, todo: seq<Def>)
    ensures AppliedSoFar(found, before, todo, 0, found, before)
  {
    assert todo[0..] == todo;
  }

  lemma OneApplied(found: Versions, before: seq<Def>, todo: seq<Def>, k: nat, recorded: Versions, effects: seq<Def>)
    requires AppliedSoFar(found, before, todo, k, recorded, effects) && k < |todo| && Recordable(todo[k])
    ensures AppliedSoFar(found, before, todo, k + 1, recorded[todo[k].version := todo[k]], effects + [todo[k]])
  {
    assert todo[..k + 1][..k] == todo[..k] && todo[..k + 1] == todo[..k] + [todo[k]] && todo[k..][1..] == todo[k + 1..];
  }

  /** Where applying ends: at the fault, at a definition that does not fit, or with the last one. */
  lemma AppliedAll(found: Versions, before: seq<Def>, todo: seq<Def>, k: nat, recorded: Versions, effects: seq<Def>, fault: nat)
    requires AppliedSoFar(found, before, todo, k, recorded, effects) && k <= fault
    requires k == |todo| || fault == k || !Recordable(todo[k])
    ensures k == Min(fault, Leading(todo)) && effects == before + todo[..k] && recorded == Extended(found, todo[..k])
  {}

  class SchemaDb {
    var recorded: Versions
    var effects: seq<Def>

    /** Compares every recorded definition with the directory. */
    method Verify(files: seq<Def>) returns (ok: bool)
      requires Keyed(recorded)
      ensures ok <==> Matches(files, recorded)
    {
      var byVersion := FilesByVersion(files);
      ToMapKeyed(files);
      var todo: set<int> := recorded.Keys;
      while todo != {}
        invariant todo <= recorded.Keys
        invariant forall v :: v in recorded && v !in todo ==> v in byVersion && byVersion[v] == recorded[v]
        decreases |todo|
      {
        assert (forall v :: v !in todo) ==> todo == {};
        var v :| v in todo;
        if v !in byVersion || byVersion[v].name != recorded[v].name || byVersion[v].sum != recorded[v].sum { return false; }
        todo := todo - {v};
      }
      ok := true;
    }

    method FilesByVersion(files: seq<Def>) returns (m: Versions)
      ensures m == ToMap(files)
    {
      m := map[];
      for i := 0 to |files|
        invariant m == ToMap(files[..i])
      {
        assert files[..i + 1][..i] == files[..i];
        m := m[files[i].version := files[i]];
      }
      assert files[..|files|] == files;
    }

    /** The transactions of the missing definitions, in order; `fault` is the one that fails, if any does, and
        one whose record does not fit fails by itself. */
    method ApplyMissing(files: seq<Def>, found: Versions, fault: nat) returns (ok: bool)
      requires found == recorded && Ordered(files)
      modifies this
      ensures var todo := Missing(files, found);
              var done := Min(fault, Leading(todo));
              effects == old(effects) + todo[..done] && recorded == Extended(found, todo[..done]) && (ok <==> done == |todo|)
    {
      ghost var todo, before := Missing(files, found), effects;
      var count: nat := 0;
      NothingApplied(found, before, todo);
      assert files[0..] == files && todo[0..] == todo;
      hide Ordered, AppliedSoFar, Extended, Leading, Recordable;
      for i := 0 to |files|
        invariant count <= |todo| && Missing(files[i..], found) == todo[count..] && count <= fault
        invariant AppliedSoFar(found, before, todo, count, recorded, effects)
      {
        var f := files[i];
        assert files[i..][1..] == files[i + 1..];
        if f.version !in found {
          assert todo[count] == f && todo[count..][1..] == todo[count + 1..];
          if fault == count || !Recordable(f) {
            AppliedAll(found, before, todo, count, recorded, effects, fault);
            return false;
          }
          OneApplied(found, before, todo, count, recorded, effects);
          recorded := recorded[f.version := f];
          effects := effects + [f];
          count := count + 1;
        }
      }
      AppliedAll(found, before, todo, count, recorded, effects, fault);
      ok := true;
    }

    /** `initializeSchema` inside the schema lock. A directory that cannot be read, or that does not match
        what is recorded, applies nothing. */
    method InitializeSchema(entries: seq<File>, fault: nat) returns (ok: bool)
      requires Keyed(recorded)
      modifies this
      ensures Keyed(recorded)
      ensures ok ==> Readable(entries)
      ensures !Readable(entries) ==> recorded == old(recorded) && effects == old(effects)
      ensures Readable(entries) ==> exists dir ::
                && DirectoryOf(entries, dir)
                && (if !Matches(dir, old(recorded)) then !ok && recorded == old(recorded) && effects == old(effects)
                    else
                      var todo := Missing(dir, old(recorded));
                      var done := Min(fault, Leading(todo));
                      && effects == old(effects) + todo[..done] && recorded == Extended(old(recorded), todo[..done])
                      && (ok <==> done == |todo|))
      ensures !AllUnaltered(entries, old(recorded)) ==> !ok && recorded == old(recorded) && effects == old(effects)
      ensures ok ==> forall i :: 0 <= i < |entries| && IsDefinition(entries[i]) ==> RecordedAs(recorded, entries[i])
      ensures Readable(entries) && AllUnaltered(entries, old(recorded)) && AllFit(entries) && fault >= |entries| ==> ok
      ensures forall v :: v in old(recorded) ==> v in recorded && recorded[v] == old(recorded)[v]
    {
      hide Matches, Missing, Extended, Ordered, IsDefinition, VersionOf, Leading;
      var found := DiscoverSchemaDefinitions(entries);
      if found.Err? { return false; }
      assert DirectoryOf(entries, found.value);
      hide DirectoryOf, AllUnaltered, RecordedAs, AllFit, Keyed;
      var matching := Verify(found.value);
      MatchesIffUnaltered(entries, found.value, recorded);
      if !matching { return false; }
      ok := ApplyMissing(found.value, recorded, fault);
      ExtendedKeyed(old(recorded), effects[|old(effects)|..]);
      StartRecords(entries, found.value, old(recorded), recorded, fault);
    }
  }

  // ---- What a start checks and records, told from the files ----

  /** Some definition file with this number has the recorded name and content. */
  ghost predicate Unaltered(entries: seq<File>, v: int, d: Def) {
    exists i :: 0 <= i < |entries| && HasVersion(entries[i], v) && entries[i].name == d.name && entries[i].sum == d.sum
  }

  ghost predicate AllUnaltered(entries: seq<File>, recorded: Versions) {
    forall v :: v in recorded ==> Unaltered(entries, v, recorded[v])
  }

  /** The file's number is recorded, with its name and its own content. */
  ghost predicate RecordedAs(recorded: Versions, f: File) {
    exists v :: HasVersion(f, v) && v in recorded && recorded[v].name == f.name && recorded[v].sum == f.sum && recorded[v].version == v
  }

  /** Every definition's number and name fit their columns. */
  ghost predicate AllFit(entries: seq<File>) {
    forall i, v :: 0 <= i < |entries| && HasVersion(entries[i], v) ==> v <= MAX_VERSION && |entries[i].name| <= MAX_FILE_NAME
  }

  lemma DefinitionOf(f: File, d: Def)
    ensures Defines(f, d) <==> HasVersion(f, d.version) && d.name == f.name && d.sum == f.sum
  {
    hide VersionOf;
  }

  /** A directory matches what is recorded exactly when no recorded file is missing, renamed or altered. */
  lemma MatchesIffUnaltered(entries: seq<File>, dir: seq<Def>, recorded: Versions)
    requires DirectoryOf(entries, dir) && Keyed(recorded)
    ensures Matches(dir, recorded) <==> AllUnaltered(entries, recorded)
  {
    hide IsDefinition, VersionOf, Ordered, ToMap;
    forall v | v in recorded
      ensures (v in ToMap(dir) && ToMap(dir)[v] == recorded[v]) <==> Unaltered(entries, v, recorded[v])
    {
      OrderedMap(dir, recorded[v]);
      forall i | 0 <= i < |entries| ensures Defines(entries[i], recorded[v])
          <==> HasVersion(entries[i], v) && entries[i].name == recorded[v].name && entries[i].sum == recorded[v].sum {
        DefinitionOf(entries[i], recorded[v]);
      }
    }
  }

  lemma {:induction false} ExtendedHolds(recorded: Versions, defs: seq<Def>)
    requires Distinct(defs) && forall d :: d in defs ==> d.version !in recorded
    ensures forall d :: d in defs ==> Holds(Extended(recorded, defs), d)
    ensures forall v :: v in recorded ==> v in Extended(recorded, defs) && Extended(recorded, defs)[v] == recorded[v]
    decreases defs
  {
    if defs != [] {
      var n := |defs| - 1;
      assert forall d :: d in defs[..n] ==> d in defs;
      assert Extended(recorded, defs) == Extended(recorded, defs[..n])[defs[n].version := defs[n]];
      ExtendedHolds(recorded, defs[..n]);
      forall d | d in defs ensures Holds(Extended(recorded, defs), d) {
        var i :| 0 <= i < |defs| && defs[i] == d;
        if i < n {
          assert defs[..n][i] == d && defs[i].version != defs[n].version;
          assert Holds(Extended(recorded, defs[..n]), d);
        }
      }
    }
  }

  lemma {:induction false} MissingIsDistinct(dir: seq<Def>, recorded: Versions)
    requires Ordered(dir)
    ensures Ordered(Missing(dir, recorded))
  {
    if dir != [] {
      var rest := Missing(dir[1..], recorded);
      assert Missing(dir, recorded) == rest || Missing(dir, recorded) == [dir[0]] + rest;
      MissingAccounts(dir[1..], recorded);
      FirstIsLeast(dir);
      hide Missing;
      MissingIsDistinct(dir[1..], recorded);
      OrderedMore(dir[0], rest);
    }
  }

  lemma FirstIsLeast(dir: seq<Def>)
    requires dir != [] && Ordered(dir)
    ensures Ordered(dir[1..]) && forall d :: d in dir[1..] ==> dir[0].version < d.version
  {
    assert forall i :: 0 <= i < |dir[1..]| ==> dir[1..][i] == dir[i + 1];
  }

  lemma OrderedMore(d: Def, rest: seq<Def>)
    requires Ordered(rest) && forall e :: e in rest ==> d.version < e.version
    ensures Ordered([d] + rest)
  {
    forall i | 0 <= i < |rest| ensures d.version < rest[i].version { assert rest[i] in rest; }
  }

  lemma PrefixIsDistinct(defs: seq<Def>, n: nat)
    requires Ordered(defs) && n <= |defs|
    ensures Distinct(defs[..n]) && forall d :: d in defs[..n] ==> d in defs
  {}

  lemma {:induction false} MissingIsNoLonger(dir: seq<Def>, recorded: Versions)
    ensures |Missing(dir, recorded)| <= |dir|
  {
    if dir != [] { MissingIsNoLonger(dir[1..], recorded); }
  }

  lemma FitsItsColumns(entries: seq<File>, dir: seq<Def>, d: Def)
    requires DirectoryOf(entries, dir) && AllFit(entries) && d in dir
    ensures Recordable(d)
  {
    hide IsDefinition, VersionOf;
    var i :| 0 <= i < |entries| && Defines(entries[i], d);
    DefinitionOf(entries[i], d);
  }

  /** What applying the missing definitions, up to a fault, records of the files. */
  lemma StartRecords(entries: seq<File>, dir: seq<Def>, before: Versions, after: Versions, fault: nat)
    requires DirectoryOf(entries, dir) && Readable(entries) && Matches(dir, before) && |dir| <= |entries|
    requires var todo := Missing(dir, before); after == Extended(before, todo[..Min(fault, Leading(todo))])
    ensures forall v :: v in before ==> v in after && after[v] == before[v]
    ensures var todo := Missing(dir, before);
            Min(fault, Leading(todo)) == |todo| ==> forall i :: 0 <= i < |entries| && IsDefinition(entries[i]) ==> RecordedAs(after, entries[i])
    ensures var todo := Missing(dir, before); AllFit(entries) && fault >= |entries| ==> Min(fault, Leading(todo)) == |todo|
  {
    var todo := Missing(dir, before);
    var n := Min(fault, Leading(todo));
    MissingIsDistinct(dir, before);
    MissingAccounts(dir, before);
    MissingIsNoLonger(dir, before);
    PrefixIsDistinct(todo, n);
    ExtendedHolds(before, todo[..n]);
    if AllFit(entries) {
      forall d | d in todo ensures Recordable(d) { FitsItsColumns(entries, dir, d); }
      LeadingIff(todo);
    }
    hide Missing, Extended, Leading, Recordable, AllFit;
    if n == |todo| {
      assert todo[..n] == todo;
      forall i | 0 <= i < |entries| && IsDefinition(entries[i]) ensures RecordedAs(after, entries[i]) {
        EntryIsRecorded(entries, dir, before, after, i);
      }
    }
  }

  lemma EntryIsRecorded(entries: seq<File>, dir: seq<Def>, before: Versions, after: Versions, i: int)
    requires DirectoryOf(entries, dir) && Readable(entries) && Matches(dir, before)
    requires 0 <= i < |entries| && IsDefinition(entries[i])
    requires forall d :: d in dir ==> d in Missing(dir, before) || d.version in before
    requires forall d :: d in Missing(dir, before) ==> Holds(after, d)
    requires forall v :: v in before ==> v in after && after[v] == before[v]
    ensures RecordedAs(after, entries[i])
  {
    hide VersionOf, Missing, ToMap, Ordered;
    var d := Def(VersionOf(entries[i].name).value, entries[i].name, entries[i].sum);
    DefinitionOf(entries[i], d);
    assert HasVersion(entries[i], d.version);
    assert Defines(entries[i], d);
    assert d in dir;
    OrderedMap(dir, d);
    assert Holds(after, d);
  }

  /** The definitions of a readable directory, in version order. */
  ghost predicate DirectoryOf(entries: seq<File>, dir: seq<Def>) {
    && Ordered(dir)
    && forall d :: d in dir <==> exists i :: 0 <= i < |entries| && Defines(entries[i], d)
  }

  lemma {:induction false} ExtendedKeyed(recorded: Versions, defs: seq<Def>)
    requires Keyed(recorded)
    ensures Keyed(Extended(recorded, defs))
    decreases defs
  {
    if defs != [] { ExtendedKeyed(recorded, defs[..|defs| - 1]); }
  }

  lemma {:induction false} ExtendedToMap(a: seq<Def>, b: seq<Def>)
    ensures Extended(ToMap(a), b) == ToMap(a + b)
    decreases b
  {
    if b == [] {
      assert a + b == a;
    } else {
      assert (a + b)[..|a + b| - 1] == a + b[..|b| - 1];
      ExtendedToMap(a, b[..|b| - 1]);
    }
  }

  /** Resumption: whatever stretch of an append-only directory earlier starters recorded before they
      stopped, applying what is missing ends with exactly the directory, each definition once. */
  lemma ResumingCompletes(all: seq<Def>, n: nat)
    requires Ordered(all) && n <= |all|
    ensures Matches(all, ToMap(all[..n]))
    ensures var todo := Missing(all, ToMap(all[..n]));
            all[..n] + todo == all && Extended(ToMap(all[..n]), todo) == ToMap(all)
  {
    assert all[..|all|] == all;
    CheckFindsRest(all, |all|, n);
    ExtendedToMap(all[..n], all[n..]);
    assert all[..n] + all[n..] == all;
  }

  // ---- A directory that never gets through ----

  lemma OrderedDiffer(dir: seq<Def>)
    requires Ordered(dir) && |dir| > 1
    ensures dir[0] != dir[1]
  {
    assert dir[0].version < dir[1].version;
  }

  /** The only definition of a directory is all there is to its listing. */
  lemma OneDefinition(f: File, dir: seq<Def>)
    requires IsDefinition(f) && Numbered(f) && DirectoryOf([f], dir)
    ensures dir == [DefOf(f)]
  {
    hide IsDefinition, VersionOf;
    if |dir| > 1 { OrderedDiffer(dir); }
    assert [f][0] == f && Defines([f][0], DefOf(f));
    assert DefOf(f) in dir;
    forall i | 0 <= i < |dir| ensures dir[i] == DefOf(f) {
      assert dir[i] in dir;
      assert exists k :: 0 <= k < |[f]| && Defines([f][k], dir[i]);
    }
  }

  lemma EndOf(a: string, b: string, n: nat)
    requires n <= |b|
    ensures (a + b)[|a + b| - n..] == b[|b| - n..]
  {}

  lemma PrefixIsNumber(number: string, rest: string)
    requires number != "" && Digits(number) == |number| && Number(number) <= MAX_INT
    requires rest != "" && rest[0] == '_'
    ensures VersionOf(number + rest) == Some(Number(number))
  {
    DigitsThen(number, rest);
    Parted(number, rest);
    var name := number + rest;
    assert name[|number|] == name[|number|..][0];
    hide Digits, Number;
  }

  lemma PrefixIsVersion(number: string, rest: string, sum: string)
    requires number != "" && Digits(number) == |number| && Number(number) <= MAX_INT
    requires |rest| >= 4 && rest[0] == '_' && rest[|rest| - 4..] == SQL
    ensures var f := File(number + rest, false, sum); IsDefinition(f) && Numbered(f) && DefOf(f).version == Number(number)
  {
    PrefixIsNumber(number, rest);
    EndOf(number, rest, 4);
    hide VersionOf, Digits, Number;
  }

  lemma OneReadable(f: File)
    requires Numbered(f)
    ensures Readable([f])
  {
    hide IsDefinition, VersionOf;
  }

  lemma UnfitStops(d: Def)
    requires !Recordable(d)
    ensures Matches([d], map[]) && Missing([d], map[]) == [d] && Leading([d]) == 0
  {
    assert [d][1..] == [];
  }

  /** A single file whose number is a machine word but no INTEGER: the directory is readable and agrees with an
      empty table, and a start applies nothing and stops there. */
  lemma OverlongVersionStops(number: string, rest: string, sum: string)
    requires number != "" && Digits(number) == |number| && MAX_VERSION < Number(number) <= MAX_INT
    requires |rest| >= 4 && rest[0] == '_' && rest[|rest| - 4..] == SQL
    ensures var f := File(number + rest, false, sum);
            && Readable([f]) && IsDefinition(f) && Numbered(f) && DefOf(f).version == Number(number)
            && (forall dir :: DirectoryOf([f], dir) ==>
                  dir == [DefOf(f)] && Matches(dir, map[]) && Missing(dir, map[]) == dir && Leading(dir) == 0)
  {
    var f := File(number + rest, false, sum);
    PrefixIsVersion(number, rest, sum);
    UnfitStops(DefOf(f));
    hide Digits, Number, IsDefinition, VersionOf, Matches, Missing, Leading, DirectoryOf, Readable, DefOf;
    OneReadable(f);
    forall dir | DirectoryOf([f], dir) ensures dir == [DefOf(f)] { OneDefinition(f, dir); }
  }

  lemma MoreDigits(s: string, c: char)
    requires Digits(s) == |s| && IsDigit(c)
    ensures Digits(s + [c]) == |s| + 1 && Number(s + [c]) == 10 * Number(s) + (c as int - '0' as int)
  {
    var t := s + [c];
    assert forall i :: 0 <= i < |s| ==> IsDigit(s[i]);
    AllDigits(t);
    assert t[..|t| - 1] == s;
    hide Digits;
  }

  /** The smallest such number. */
  lemma SmallestOverlongVersion()
    ensures var number := "2147483648"; Digits(number) == |number| && Number(number) == MAX_VERSION + 1 <= MAX_INT
  {
    hide Digits, Number;
    var high := "21474";
    assert Digits(high) == 5 && Number(high) == 21474 by { FiveDigits(); }
    MoreDigits(high, '8');
    MoreDigits(high + "8", '3');
    MoreDigits(high + "8" + "3", '6');
    MoreDigits(high + "8" + "3" + "6", '4');
    MoreDigits(high + "8" + "3" + "6" + "4", '8');
    assert high + "8" + "3" + "6" + "4" + "8" == "2147483648";
  }

  lemma FiveDigits()
    ensures var high := "21474"; Digits(high) == 5 && Number(high) == 21474
  {
    NoDigits();
    hide Digits, Number;
    MoreDigits("", '2');
    MoreDigits("" + "2", '1');
    MoreDigits("" + "2" + "1", '4');
    MoreDigits("" + "2" + "1" + "4", '7');
    MoreDigits("" + "2" + "1" + "4" + "7", '4');
    assert "" + "2" + "1" + "4" + "7" + "4" == "21474";
  }

  lemma NoDigits()
    ensures Digits("") == 0 && Number("") == 0
  {}

  /** An input that shows it. */
  lemma OverlongVersionFile(sum: string)
    ensures var f := File("2147483648_a.sql", false, sum);
            && Readable([f]) && IsDefinition(f) && Numbered(f) && !Recordable(DefOf(f))
            && (forall dir :: DirectoryOf([f], dir) ==> Matches(dir, map[]) && Missing(dir, map[]) == [DefOf(f)] && Leading(dir) == 0)
  {
    var number, rest := "2147483648", "_a.sql";
    assert rest[2..] == SQL && number + rest == "2147483648_a.sql";
    SmallestOverlongVersion();
    hide Digits, Number, IsDefinition, VersionOf, Matches, Missing, Leading, DirectoryOf;
    OverlongVersionStops(number, rest, sum);
  }

  // ---- Which files are definitions, and their numbers ----

  lemma DefinitionFileIff(f: File)
    ensures IsDefinition(f) <==> !f.isDir && exists stem :: f.name == stem + ".sql"
  {
    if IsDefinition(f) { assert f.name == f.name[..|f.name| - 4] + ".sql"; }
    if stem :| f.name == stem + ".sql" { assert f.name[|f.name| - 4..] == ".sql"; }
  }

  /** A name is numbered exactly when it is digits, an underscore and anything, the digits within a word. */
  lemma VersionIff(name: string, v: int)
    ensures VersionOf(name) == Some(v) <==>
              exists number, rest :: name == number + ['_'] + rest && number != "" && Digits(number) == |number| && Number(number) == v && v <= MAX_INT
  {
    var n := Digits(name);
    assert !IsDigit('_');
    if VersionOf(name) == Some(v) {
      PrefixDigits(name, n);
      Split(name, n);
    }
    if number, rest :| name == number + ['_'] + rest && number != "" && Digits(number) == |number| && Number(number) == v && v <= MAX_INT {
      Glued(number, ['_'], rest);
      DigitsThen(number, ['_'] + rest);
      Parted(number, ['_'] + rest);
    }
  }

  lemma Split(s: string, n: nat)
    requires n < |s|
    ensures s == s[..n] + [s[n]] + s[n + 1..]
  {}

  lemma PrefixDigits(s: string, n: nat)
    requires n == Digits(s)
    ensures Digits(s[..n]) == n
  {
    AllDigits(s[..n]);
  }
}
