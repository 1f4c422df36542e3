/** The schema initializer: numbered definition files, each applied once and recorded with its effect. */
module Schema {
  import opened Base

  /** A definition file; `sum` stands for the SHA-256 of its content. */
  datatype Def = Def(version: int, name: string, sum: string)

  /** The largest version the INTEGER column of schema_versions holds, and the width of its name column. */
  const MAX_VERSION: int := 0x7FFF_FFFF
  const MAX_FILE_NAME := 255

  predicate Recordable(d: Def) { d.version <= MAX_VERSION && |d.name| <= MAX_FILE_NAME }

  /** What a schema_versions table records, by version. */
  type Versions = map<int, Def>

  function ToMap(defs: seq<Def>): Versions
    decreases defs
  {
    if defs == [] then map[] else ToMap(defs[..|defs| - 1])[defs[|defs| - 1].version := defs[|defs| - 1]]
  }

  /** In version order, no version twice: what the discovery of a directory returns. */
  ghost predicate Ordered(defs: seq<Def>) {
    forall i, j :: 0 <= i < j < |defs| ==> defs[i].version < defs[j].version
  }

  /** Every recorded definition is in the directory, under the same name and unaltered. */
  predicate Matches(dir: seq<Def>, recorded: Versions) {
    forall v :: v in recorded ==> v in ToMap(dir) && ToMap(dir)[v] == recorded[v]
  }

  function Missing(dir: seq<Def>, recorded: Versions): seq<Def> {
    if dir == [] then []
    else if dir[0].version in recorded then Missing(dir[1..], recorded)
    else [dir[0]] + Missing(dir[1..], recorded)
  }

  // ---- Concurrent starters ----

  /** `Applying` holds the definitions the starter found unrecorded and has not applied yet. */
  datatype Stage = Waiting | Locked | Applying(todo: seq<Def>) | Succeeded | Refused

  datatype Starter = Starter(dir: seq<Def>, stage: Stage)

  /** `effects` is the history of the definitions whose statements took effect. */
  datatype World = World(recorded: Versions, effects: seq<Def>, holder: Option<int>, starters: map<int, Starter>)

  datatype Action =
    | Start(p: int, dir: seq<Def>)
    | Acquire(p: int)
    | Check(p: int)
    | ApplyNext(p: int)
    | Finish(p: int)
    | Stop(p: int)
    | LoseLock(p: int)

  function Become(w: World, p: int, stage: Stage): World
    requires p in w.starters
  {
    w.(starters := w.starters[p := w.starters[p].(stage := stage)])
  }

  function Release(w: World, p: int): World { if w.holder == Some(p) then w.(holder := None) else w }

  /** One definition and its record, in one transaction; the primary key refuses a second record, and the
      columns one that does not fit. */
  function ApplyOne(w: World, p: int, todo: seq<Def>): World
    requires p in w.starters && todo != []
  {
    if todo[0].version in w.recorded || !Recordable(todo[0]) then Become(Release(w, p), p, Refused)
    else Become(w.(recorded := w.recorded[todo[0].version := todo[0]], effects := w.effects + [todo[0]]), p, Applying(todo[1..]))
  }

  function StageOf(w: World, p: int): Stage { if p in w.starters then w.starters[p].stage else Refused }

  function Step(w: World, a: Action): World {
    match a
    case Start(p, dir) => if p in w.starters then w else w.(starters := w.starters[p := Starter(dir, Waiting)])
    case Acquire(p) => if StageOf(w, p) == Waiting && w.holder.None? then Become(w.(holder := Some(p)), p, Locked) else w
    case Check(p) =>
      if StageOf(w, p) != Locked then w
      else if Matches(w.starters[p].dir, w.recorded) then Become(w, p, Applying(Missing(w.starters[p].dir, w.recorded)))
      else Become(Release(w, p), p, Refused)
    case ApplyNext(p) =>
      if StageOf(w, p).Applying? && StageOf(w, p).todo != [] then ApplyOne(w, p, StageOf(w, p).todo) else w
    case Finish(p) => if StageOf(w, p) == Applying([]) then Become(Release(w, p), p, Succeeded) else w
    case Stop(p) => if p !in w.starters || StageOf(w, p) == Succeeded then w else Become(Release(w, p), p, Refused)
    case LoseLock(p) => Release(w, p)
  }

  function Run(w: World, actions: seq<Action>): World
    decreases actions
  {
    if actions == [] then w else Run(Step(w, actions[0]), actions[1..])
  }

  // ---- Exactly once, lock or no lock ----

  ghost predicate Distinct(defs: seq<Def>) {
    forall i, j :: 0 <= i < j < |defs| ==> defs[i].version != defs[j].version
  }

  /** Every recorded definition took effect once, and nothing else did. */
  ghost predicate OnceEach(w: World) { Distinct(w.effects) && w.recorded == ToMap(w.effects) }

  lemma {:induction false} InMap(defs: seq<Def>, v: int)
    ensures v in ToMap(defs) <==> exists i :: 0 <= i < |defs| && defs[i].version == v
    ensures Distinct(defs) ==> forall i :: 0 <= i < |defs| ==> defs[i].version in ToMap(defs) && ToMap(defs)[defs[i].version] == defs[i]
    decreases defs
  {
    if defs != [] {
      var n := |defs| - 1;
      InMap(defs[..n], v);
      if i :| 0 <= i < |defs| && defs[i].version == v { assert i < n ==> defs[..n][i].version == v; }
      if Distinct(defs) {
        forall i | 0 <= i < |defs| ensures defs[i].version in ToMap(defs) && ToMap(defs)[defs[i].version] == defs[i] {
          if i < n { InMap(defs[..n], defs[i].version); assert defs[..n][i] == defs[i]; }
        }
      }
    }
  }

  lemma StepKeepsOnce(w: World, a: Action)
    requires OnceEach(w)
    ensures OnceEach(Step(w, a))
  {
    match a
    case ApplyNext(p) =>
      if StageOf(w, p).Applying? && StageOf(w, p).todo != [] && StageOf(w, p).todo[0].version !in w.recorded && Recordable(StageOf(w, p).todo[0]) {
        OnceGrows(w.effects, StageOf(w, p).todo[0]);
      }
      hide Distinct, ToMap;
    case _ => hide Distinct, ToMap, Matches, Missing;
  }

  lemma OnceGrows(effects: seq<Def>, d: Def)
    requires Distinct(effects) && d.version !in ToMap(effects)
    ensures Distinct(effects + [d]) && ToMap(effects + [d]) == ToMap(effects)[d.version := d]
  {}

  /** For any number of starters with any directories, any crashes and even a lost lock, each definition
      takes effect at most once and is recorded exactly when it did. */
  lemma {:induction false} EachDefinitionOnce(w: World, actions: seq<Action>)
    requires OnceEach(w)
    ensures OnceEach(Run(w, actions))
    decreases actions
  {
    hide OnceEach, Step;
    if actions != [] {
      StepKeepsOnce(w, actions[0]);
      EachDefinitionOnce(Step(w, actions[0]), actions[1..]);
    }
  }

  /** A starter whose directory no longer matches what is recorded applies nothing, in any
      continuation. */
  lemma {:induction false} RefusedStaysRefused(w: World, p: int, actions: seq<Action>)
    requires p in w.starters && StageOf(w, p) == Refused
    ensures p in Run(w, actions).starters && StageOf(Run(w, actions), p) == Refused
    decreases actions
  {
    if actions != [] {
      var x := Step(w, actions[0]);
      hide Matches, Missing;
      assert p in x.starters && StageOf(x, p) == Refused;
      RefusedStaysRefused(x, p, actions[1..]);
    }
  }

  lemma TamperedAppliesNothing(w: World, p: int, actions: seq<Action>)
    requires p in w.starters && StageOf(w, p) == Locked && !Matches(w.starters[p].dir, w.recorded)
    ensures Step(w, Check(p)).recorded == w.recorded && StageOf(Run(Step(w, Check(p)), actions), p) == Refused
  {
    RefusedStaysRefused(Step(w, Check(p)), p, actions);
  }

  // ---- Append-only directories ----

  predicate PrefixOf(dir: seq<Def>, all: seq<Def>) { |dir| <= |all| && dir == all[..|dir|] }

  predicate RestFrom(dir: seq<Def>, todo: seq<Def>, k: int) { 0 <= k <= |dir| && todo == dir[k..] }

  /** A starter that is applying goes through the directory in order and has skipped nothing that is
      not recorded. */
  ghost predicate InOrder(w: World, s: Starter, all: seq<Def>) {
    && PrefixOf(s.dir, all)
    && (s.stage.Applying? ==>
          exists k :: k <= |w.effects| && RestFrom(s.dir, s.stage.todo, k))
  }

  ghost predicate PrefixRecorded(w: World, all: seq<Def>) {
    && PrefixOf(w.effects, all) && w.recorded == ToMap(w.effects)
    && (forall p :: p in w.starters ==> InOrder(w, w.starters[p], all))
  }

  lemma {:induction false} MissingIsRest(dir: seq<Def>, recorded: Versions, n: nat)
    requires n <= |dir|
    requires forall i :: 0 <= i < |dir| ==> (dir[i].version in recorded <==> i < n)
    ensures Missing(dir, recorded) == dir[n..]
  {
    if dir != [] {
      assert forall i :: 0 <= i < |dir[1..]| ==> dir[1..][i] == dir[i + 1];
      if n > 0 {
        MissingIsRest(dir[1..], recorded, n - 1);
        assert dir[1..][n - 1..] == dir[n..];
      } else {
        MissingIsRest(dir[1..], recorded, 0);
        assert dir[0..] == dir == [dir[0]] + dir[1..];
      }
    }
  }

  lemma OrderedMeansDistinct(defs: seq<Def>, n: nat)
    requires Ordered(defs) && n <= |defs|
    ensures Distinct(defs) && Distinct(defs[..n])
  {}

  lemma PrefixHolds(all: seq<Def>, n: nat, i: nat)
    requires Ordered(all) && n <= |all| && i < |all|
    ensures all[i].version in ToMap(all[..n]) <==> i < n
    ensures i < n ==> ToMap(all[..n])[all[i].version] == all[i]
  {
    OrderedMeansDistinct(all, n);
    InMap(all[..n], all[i].version);
    hide ToMap;
    if i < n {
      assert all[..n][i] == all[i];
    } else if k :| 0 <= k < n && all[..n][k].version == all[i].version {
      assert all[k].version < all[i].version;
    }
  }

  lemma PrefixKey(all: seq<Def>, n: nat, v: int) returns (i: nat)
    requires n <= |all| && v in ToMap(all[..n])
    ensures i < n && all[i].version == v
  {
    InMap(all[..n], v);
    var k :| 0 <= k < n && all[..n][k].version == v;
    i := k;
  }

  /** Reading an append-only directory against its own recorded prefix. */
  lemma CheckFindsRest(all: seq<Def>, m: nat, n: nat)
    requires Ordered(all) && m <= |all| && n <= |all|
    ensures Matches(all[..m], ToMap(all[..n])) <==> n <= m
    ensures n <= m ==> Missing(all[..m], ToMap(all[..n])) == all[..m][n..]
  {
    hide ToMap;
    if n <= m {
      forall v | v in ToMap(all[..n]) ensures v in ToMap(all[..m]) && ToMap(all[..m])[v] == ToMap(all[..n])[v] {
        var i := PrefixKey(all, n, v);
        PrefixHolds(all, n, i);
        PrefixHolds(all, m, i);
      }
      forall i | 0 <= i < m ensures all[..m][i].version in ToMap(all[..n]) <==> i < n { PrefixHolds(all, n, i); }
      MissingIsRest(all[..m], ToMap(all[..n]), n);
    } else {
      PrefixHolds(all, n, m);
      PrefixHolds(all, m, m);
    }
  }

  lemma CheckKeepsPrefix(w: World, p: int, all: seq<Def>)
    requires Ordered(all) && PrefixRecorded(w, all) && p in w.starters && Matches(w.starters[p].dir, w.recorded)
    ensures PrefixRecorded(Become(w, p, Applying(Missing(w.starters[p].dir, w.recorded))), all)
  {
    var dir := w.starters[p].dir;
    CheckFindsRest(all, |dir|, |w.effects|);
    assert dir == all[..|dir|] && w.effects == all[..|w.effects|];
    assert RestFrom(dir, Missing(dir, w.recorded), |w.effects|);
    hide Matches, Missing, ToMap, PrefixOf, RestFrom;
  }

  lemma UnrecordedIsNext(all: seq<Def>, m: nat, n: nat, k: nat)
    requires Ordered(all) && m <= |all| && n <= |all| && k <= n && k < m
    requires all[..m][k].version !in ToMap(all[..n])
    ensures k == n
  {
    PrefixHolds(all, n, k);
  }

  lemma NextIsNext(w: World, s: Starter, all: seq<Def>)
    requires Ordered(all) && PrefixOf(w.effects, all) && w.recorded == ToMap(w.effects) && InOrder(w, s, all)
    requires s.stage.Applying? && s.stage.todo != [] && s.stage.todo[0].version !in w.recorded
    ensures |w.effects| < |s.dir| && s.stage.todo == s.dir[|w.effects|..]
  {
    hide ToMap, Ordered;
    var k :| k <= |w.effects| && RestFrom(s.dir, s.stage.todo, k);
    assert s.stage.todo[0] == s.dir[k];
    UnrecordedIsNext(all, |s.dir|, |w.effects|, k);
  }

  lemma ToMapOfMore(effects: seq<Def>, d: Def)
    ensures ToMap(effects + [d]) == ToMap(effects)[d.version := d]
  {
    assert (effects + [d])[..|effects|] == effects;
  }

  lemma OneFurther(effects: seq<Def>, dir: seq<Def>, todo: seq<Def>, all: seq<Def>)
    requires PrefixOf(effects, all) && PrefixOf(dir, all) && |effects| < |dir| && todo == dir[|effects|..]
    ensures PrefixOf(effects + [todo[0]], all) && RestFrom(dir, todo[1..], |effects| + 1)
  {
    assert todo[0] == dir[|effects|] == all[|effects|];
    assert effects + [todo[0]] == all[..|effects| + 1];
    assert todo[1..] == dir[|effects| + 1..];
  }

  lemma ApplyKeepsPrefix(w: World, p: int, all: seq<Def>)
    requires Ordered(all) && PrefixRecorded(w, all) && p in w.starters && w.starters[p].stage.Applying? && w.starters[p].stage.todo != []
    ensures PrefixRecorded(ApplyOne(w, p, w.starters[p].stage.todo), all)
  {
    var todo, dir := w.starters[p].stage.todo, w.starters[p].dir;
    if todo[0].version !in w.recorded {
      NextIsNext(w, w.starters[p], all);
      OneFurther(w.effects, dir, todo, all);
      ToMapOfMore(w.effects, todo[0]);
      assert RestFrom(dir, todo[1..], |w.effects + [todo[0]]|);
    }
    hide ToMap, PrefixOf, RestFrom, Ordered;
  }

  lemma StepKeepsPrefix(w: World, a: Action, all: seq<Def>)
    requires Ordered(all) && PrefixRecorded(w, all) && (a.Start? ==> PrefixOf(a.dir, all))
    ensures PrefixRecorded(Step(w, a), all)
  {
    match a
    case Check(p) =>
      if StageOf(w, p) == Locked && Matches(w.starters[p].dir, w.recorded) { CheckKeepsPrefix(w, p, all); }
      hide Matches, Missing, ToMap, PrefixOf;
    case ApplyNext(p) =>
      if StageOf(w, p).Applying? && StageOf(w, p).todo != [] { ApplyKeepsPrefix(w, p, all); }
      hide PrefixRecorded, ApplyOne;
    case _ => hide ToMap, PrefixOf;
  }

  /** Every starter brings a prefix of the same growing directory. */
  ghost predicate AppendOnly(actions: seq<Action>, all: seq<Def>) {
    forall i :: 0 <= i < |actions| && actions[i].Start? ==> PrefixOf(actions[i].dir, all)
  }

  /** With append-only directories, whatever starters of whatever releases interleave, crash or lose the
      lock, what is recorded is always an initial stretch of the definitions, applied in version order. */
  lemma {:induction false} RecordedIsPrefix(w: World, actions: seq<Action>, all: seq<Def>)
    requires Ordered(all) && PrefixRecorded(w, all) && AppendOnly(actions, all)
    ensures PrefixRecorded(Run(w, actions), all)
    decreases actions
  {
    hide PrefixRecorded, Step, PrefixOf;
    if actions != [] {
      StepKeepsPrefix(w, actions[0], all);
      RecordedIsPrefix(Step(w, actions[0]), actions[1..], all);
    }
  }

  // ---- What success means ----

  ghost predicate LockKept(actions: seq<Action>) {
    forall i :: 0 <= i < |actions| ==> !actions[i].LoseLock?
  }

  ghost predicate Holds(recorded: Versions, d: Def) { d.version in recorded && recorded[d.version] == d }

  /** Every definition of the starter's directory is recorded, or still to be applied, as its stage says. */
  ghost predicate Accounted(s: Starter, recorded: Versions) {
    match s.stage
    case Applying(todo) => (forall d :: d in s.dir ==> d in todo || Holds(recorded, d)) && (forall d :: d in todo ==> d in s.dir)
    case Succeeded => forall d :: d in s.dir ==> Holds(recorded, d)
    case _ => true
  }

  ghost predicate AllAccounted(w: World) {
    forall p :: p in w.starters ==> Ordered(w.starters[p].dir) && Accounted(w.starters[p], w.recorded)
  }

  /** Only the holder of the lock is past its check, and its directory matches all that is recorded. */
  ghost predicate Exclusive(w: World) {
    forall p :: p in w.starters && (w.starters[p].stage == Locked || w.starters[p].stage.Applying?) ==>
      w.holder == Some(p) && (w.starters[p].stage.Applying? ==> Matches(w.starters[p].dir, w.recorded))
  }

  lemma {:induction false} MissingAccounts(dir: seq<Def>, recorded: Versions)
    ensures forall d :: d in dir ==> d in Missing(dir, recorded) || d.version in recorded
    ensures forall d :: d in Missing(dir, recorded) ==> d in dir && d.version !in recorded
    ensures (forall d :: d in dir ==> d.version in recorded) ==> Missing(dir, recorded) == []
  {
    if dir != [] { MissingAccounts(dir[1..], recorded); }
  }

  lemma OrderedMap(dir: seq<Def>, d: Def)
    requires Ordered(dir)
    ensures d in dir <==> d.version in ToMap(dir) && ToMap(dir)[d.version] == d
  {}

  lemma CheckAccounts(dir: seq<Def>, recorded: Versions)
    requires Ordered(dir) && Matches(dir, recorded)
    ensures Accounted(Starter(dir, Applying(Missing(dir, recorded))), recorded)
  {
    MissingAccounts(dir, recorded);
    forall d | d in dir ensures d in Missing(dir, recorded) || Holds(recorded, d) { OrderedMap(dir, d); }
    hide ToMap, Missing;
  }

  lemma ApplyAccounts(w: World, p: int, todo: seq<Def>)
    requires AllAccounted(w) && p in w.starters && w.starters[p].stage == Applying(todo) && todo != []
    ensures AllAccounted(ApplyOne(w, p, todo))
  {}

  lemma StepAccounts(w: World, a: Action)
    requires AllAccounted(w) && (a.Start? ==> Ordered(a.dir))
    ensures AllAccounted(Step(w, a))
  {
    match a
    case Check(p) =>
      if StageOf(w, p) == Locked && Matches(w.starters[p].dir, w.recorded) { CheckAccounts(w.starters[p].dir, w.recorded); }
      hide Matches, Missing, Holds, Ordered;
    case ApplyNext(p) =>
      if StageOf(w, p).Applying? && StageOf(w, p).todo != [] { ApplyAccounts(w, p, StageOf(w, p).todo); }
      hide AllAccounted, ApplyOne;
    case _ => hide Holds, Ordered;
  }

  lemma ApplyKeepsMatch(dir: seq<Def>, recorded: Versions, d: Def)
    requires Ordered(dir) && Matches(dir, recorded) && d in dir
    ensures Matches(dir, recorded[d.version := d])
  {
    OrderedMap(dir, d);
    hide ToMap;
  }

  lemma StepKeepsExclusive(w: World, a: Action)
    requires AllAccounted(w) && Exclusive(w) && !a.LoseLock?
    ensures Exclusive(Step(w, a))
  {
    match a
    case ApplyNext(p) =>
      if StageOf(w, p).Applying? && StageOf(w, p).todo != [] {
        var s := w.starters[p];
        assert Accounted(s, w.recorded);
        ApplyKeepsMatch(s.dir, w.recorded, s.stage.todo[0]);
      }
      hide Matches, Holds, Ordered;
    case _ => hide Matches, Missing, Holds, Ordered;
  }

  ghost predicate OrderedStarts(actions: seq<Action>) {
    forall i :: 0 <= i < |actions| && actions[i].Start? ==> Ordered(actions[i].dir)
  }

  /** In every run, with or without the lock, success means the whole directory is recorded. */
  lemma {:induction false} SuccessCoversDirectory(w: World, actions: seq<Action>)
    requires AllAccounted(w) && OrderedStarts(actions)
    ensures AllAccounted(Run(w, actions))
    ensures Exclusive(w) && LockKept(actions) ==> Exclusive(Run(w, actions))
    decreases actions
  {
    hide AllAccounted, Exclusive, Step, Ordered;
    if actions != [] {
      StepAccounts(w, actions[0]);
      if Exclusive(w) && LockKept(actions) { StepKeepsExclusive(w, actions[0]); }
      SuccessCoversDirectory(Step(w, actions[0]), actions[1..]);
    }
  }

  ghost predicate RecordsFit(w: World) { forall v :: v in w.recorded ==> Recordable(w.recorded[v]) }

  lemma StepKeepsFit(w: World, a: Action)
    requires RecordsFit(w)
    ensures RecordsFit(Step(w, a))
  {
    hide Matches, Missing, Recordable;
  }

  lemma {:induction false} RunKeepsFit(w: World, actions: seq<Action>)
    requires RecordsFit(w)
    ensures RecordsFit(Run(w, actions))
    decreases actions
  {
    hide RecordsFit, Step;
    if actions != [] {
      StepKeepsFit(w, actions[0]);
      RunKeepsFit(Step(w, actions[0]), actions[1..]);
    }
  }

  /** A directory with a definition whose record does not fit is never started up successfully, by anyone,
      however often it is tried. */
  lemma UnfitNeverSucceeds(w: World, actions: seq<Action>, p: int, d: Def)
    requires AllAccounted(w) && RecordsFit(w) && OrderedStarts(actions)
    requires p in Run(w, actions).starters && d in Run(w, actions).starters[p].dir && !Recordable(d)
    ensures Run(w, actions).starters[p].stage != Succeeded
  {
    SuccessCoversDirectory(w, actions);
    RunKeepsFit(w, actions);
    var x := Run(w, actions);
    assert Accounted(x.starters[p], x.recorded);
    hide Run, Ordered, Recordable;
  }

  lemma ExactlyTheDirectory(dir: seq<Def>, recorded: Versions)
    requires Ordered(dir) && Matches(dir, recorded) && forall d :: d in dir ==> Holds(recorded, d)
    ensures recorded == ToMap(dir)
  {
    var m := ToMap(dir);
    forall v | v in m ensures v in recorded {
      InMap(dir, v);
      var i :| 0 <= i < |dir| && dir[i].version == v;
      assert Holds(recorded, dir[i]);
    }
    hide ToMap, Ordered, Holds;
    assert forall v :: v in recorded ==> v in m && m[v] == recorded[v];
    assert recorded.Keys == m.Keys;
  }

  /** While the lock is kept, whoever succeeds leaves exactly its directory recorded: every definition,
      and no other. */
  lemma SuccessMeansDirectory(w: World, actions: seq<Action>, p: int)
    requires AllAccounted(w) && Exclusive(w) && OrderedStarts(actions) && LockKept(actions)
    requires StageOf(Run(w, actions), p) != Succeeded && StageOf(Step(Run(w, actions), Finish(p)), p) == Succeeded
    ensures Run(w, actions).recorded == ToMap(Run(w, actions).starters[p].dir)
  {
    SuccessCoversDirectory(w, actions);
    var x := Run(w, actions);
    assert Accounted(x.starters[p], x.recorded);
    hide Run, Holds, Ordered;
    ExactlyTheDirectory(x.starters[p].dir, x.recorded);
  }

  /** Against its own records a directory has nothing to apply. */
  lemma SecondRunIsNoOp(dir: seq<Def>)
    requires Ordered(dir)
    ensures Matches(dir, ToMap(dir)) && Missing(dir, ToMap(dir)) == []
  {
    MissingAccounts(dir, ToMap(dir));
    forall d | d in dir ensures d.version in ToMap(dir) { OrderedMap(dir, d); }
  }

  // ---- A start that nobody disturbs ----

  lemma RunOne(w: World, a: Action)
    ensures Run(w, [a]) == Step(w, a)
  {}

  lemma {:induction false} RunAppend(w: World, a: seq<Action>, b: seq<Action>)
    ensures Run(w, a + b) == Run(Run(w, a), b)
    decreases a
  {
    hide Step;
    if a == [] {
      assert a + b == b;
    } else {
      assert (a + b)[1..] == a[1..] + b;
      RunAppend(Step(w, a[0]), a[1..], b);
    }
  }

  /** This starter has the lock and that much left to apply. */
  predicate AppliesNow(w: World, p: int, dir: seq<Def>, todo: seq<Def>) {
    w.holder == Some(p) && p in w.starters && w.starters[p] == Starter(dir, Applying(todo))
  }

  /** The lock is free and the starter is done with this outcome; what the others do has not changed. */
  predicate Ended(w: World, x: World, p: int, dir: seq<Def>, stage: Stage) {
    x.holder.None? && x.starters == w.starters[p := Starter(dir, stage)]
  }

  function Opening(p: int, dir: seq<Def>): seq<Action> { [Start(p, dir), Acquire(p), Check(p)] }

  /** The check lets a matching directory through to what is missing of it, and refuses any other at once. */
  lemma OpeningOutcome(w: World, p: int, dir: seq<Def>)
    requires p !in w.starters && w.holder.None?
    ensures var x := Run(w, Opening(p, dir));
            && x.recorded == w.recorded && x.effects == w.effects
            && (Matches(dir, w.recorded) ==> AppliesNow(x, p, dir, Missing(dir, w.recorded))
                                             && x.starters == w.starters[p := Starter(dir, Applying(Missing(dir, w.recorded)))])
            && (!Matches(dir, w.recorded) ==> Ended(w, x, p, dir, Refused))
  {
    hide Matches, Missing;
    var w1 := Step(w, Start(p, dir));
    var w2 := Step(w1, Acquire(p));
    assert w2 == w.(holder := Some(p), starters := w.starters[p := Starter(dir, Locked)]);
    assert Opening(p, dir) == [Start(p, dir)] + ([Acquire(p)] + [Check(p)]);
    RunAppend(w, [Start(p, dir)], [Acquire(p)] + [Check(p)]);
    RunAppend(w1, [Acquire(p)], [Check(p)]);
    RunOne(w, Start(p, dir));
    RunOne(w1, Acquire(p));
    RunOne(w2, Check(p));
    hide Run;
  }

  function Applications(p: int, n: nat): seq<Action> { if n == 0 then [] else [ApplyNext(p)] + Applications(p, n - 1) }

  /** These definitions are recorded beside what was there, and nothing else is. */
  ghost predicate RecordsBeside(before: Versions, after: Versions, defs: seq<Def>) {
    && (forall v :: v in before ==> v in after && after[v] == before[v])
    && (forall d :: d in defs ==> Holds(after, d))
    && (forall v :: v in after ==> v in before || exists d :: d in defs && d.version == v)
  }

  lemma RecordsOneMore(before: Versions, after: Versions, defs: seq<Def>)
    requires defs != [] && defs[0].version !in before && RecordsBeside(before[defs[0].version := defs[0]], after, defs[1..])
    ensures RecordsBeside(before, after, defs)
  {
    var mid := before[defs[0].version := defs[0]];
    assert forall d :: d in defs <==> d == defs[0] || d in defs[1..];
    assert defs[0].version in mid;
    forall v | v in after && v !in before ensures exists d :: d in defs && d.version == v {
      if v !in mid { var d :| d in defs[1..] && d.version == v; }
      assert v in mid ==> defs[0].version == v;
    }
  }

  lemma ApplyStep(w: World, p: int, dir: seq<Def>, todo: seq<Def>)
    requires AppliesNow(w, p, dir, todo) && todo != [] && todo[0].version !in w.recorded && Recordable(todo[0])
    ensures var y := Step(w, ApplyNext(p));
            && AppliesNow(y, p, dir, todo[1..]) && y.recorded == w.recorded[todo[0].version := todo[0]]
            && y.effects == w.effects + [todo[0]] && y.starters == w.starters[p := Starter(dir, Applying(todo[1..]))]
  {}

  /** None of these is recorded yet, and each can be. */
  ghost predicate AllNew(recorded: Versions, todo: seq<Def>) {
    forall d :: d in todo ==> d.version !in recorded && Recordable(d)
  }

  lemma RestIsNew(recorded: Versions, todo: seq<Def>)
    requires todo != [] && Ordered(todo) && AllNew(recorded, todo)
    ensures Ordered(todo[1..]) && AllNew(recorded[todo[0].version := todo[0]], todo[1..])
    ensures todo[0].version !in recorded && Recordable(todo[0])
  {
    hide Recordable;
    assert todo[0] in todo;
    assert forall i :: 0 <= i < |todo[1..]| ==> todo[1..][i] == todo[i + 1];
    forall d | d in todo[1..] ensures d.version !in recorded[todo[0].version := todo[0]] && Recordable(d) {
      var i :| 0 <= i < |todo[1..]| && todo[1..][i] == d;
      assert todo[0].version < todo[i + 1].version && todo[i + 1] in todo;
    }
  }

  lemma Regrouped(a: seq<Def>, b: seq<Def>)
    requires b != []
    ensures a + [b[0]] + b[1..] == a + b
  {}

  lemma FirstApplication(w: World, p: int, n: nat)
    requires n > 0
    ensures Run(w, Applications(p, n)) == Run(Step(w, ApplyNext(p)), Applications(p, n - 1))
  {
    hide Step;
    assert Applications(p, n)[1..] == Applications(p, n - 1);
  }

  /** Where every missing definition fits, all are applied and recorded in order. */
  lemma {:induction false} ApplyingRun(w: World, p: int, dir: seq<Def>, todo: seq<Def>)
    requires AppliesNow(w, p, dir, todo) && Ordered(todo) && AllNew(w.recorded, todo)
    ensures var x := Run(w, Applications(p, |todo|));
            && AppliesNow(x, p, dir, []) && x.starters == w.starters[p := Starter(dir, Applying([]))]
            && x.effects == w.effects + todo && RecordsBeside(w.recorded, x.recorded, todo)
    decreases |todo|
  {
    if todo == [] {
      assert w.effects + todo == w.effects;
      assert w.starters == w.starters[p := Starter(dir, Applying([]))];
    } else {
      RestIsNew(w.recorded, todo);
      ApplyStep(w, p, dir, todo);
      FirstApplication(w, p, |todo|);
      Regrouped(w.effects, todo);
      hide Step, Recordable, Run, Applications, AppliesNow, RecordsBeside, Ordered, AllNew;
      var y := Step(w, ApplyNext(p));
      ApplyingRun(y, p, dir, todo[1..]);
      RecordsOneMore(w.recorded, Run(w, Applications(p, |todo|)).recorded, todo);
    }
  }

  /** A start all of whose missing definitions fit succeeds with exactly those applied, in order. */
  lemma ApplyingOutcome(w: World, p: int, dir: seq<Def>, todo: seq<Def>)
    requires AppliesNow(w, p, dir, todo) && Ordered(todo) && AllNew(w.recorded, todo)
    ensures var x := Run(w, Applications(p, |todo|) + [Finish(p)]);
            Ended(w, x, p, dir, Succeeded) && x.effects == w.effects + todo && RecordsBeside(w.recorded, x.recorded, todo)
  {
    ApplyingRun(w, p, dir, todo);
    RunAppend(w, Applications(p, |todo|), [Finish(p)]);
    RunOne(Run(w, Applications(p, |todo|)), Finish(p));
    hide Run, Applications, RecordsBeside, Ordered, Recordable;
  }

  /** The first definition that does not fit ends the start, with nothing of it recorded and the lock free. */
  lemma UnfitOutcome(w: World, p: int, dir: seq<Def>, todo: seq<Def>)
    requires AppliesNow(w, p, dir, todo) && todo != [] && (todo[0].version > 2147483647 || |todo[0].name| > 255)
    ensures var x := Step(w, ApplyNext(p)); Ended(w, x, p, dir, Refused) && x.recorded == w.recorded && x.effects == w.effects
  {}

  /** A starter that stops frees the lock if it has it, and one that has succeeded stays so; a lost lock is free. */
  lemma StopOutcome(w: World, p: int)
    requires p in w.starters
    ensures Step(w, LoseLock(p)) == w.(holder := if w.holder == Some(p) then None else w.holder)
    ensures var x := Step(w, Stop(p));
            && x.recorded == w.recorded && x.effects == w.effects
            && (w.starters[p].stage == Succeeded ==> x == w)
            && (w.starters[p].stage != Succeeded ==>
                  x.starters == w.starters[p := Starter(w.starters[p].dir, Refused)] && x.holder == if w.holder == Some(p) then None else w.holder)
  {}

  /** Only a waiting starter takes the lock, and only a free one. */
  lemma AcquireOutcome(w: World, p: int)
    requires p in w.starters
    ensures Step(w, Acquire(p))
            == if w.starters[p].stage == Waiting && w.holder.None?
               then w.(holder := Some(p), starters := w.starters[p := Starter(w.starters[p].dir, Locked)]) else w
  {}

  /** A start runs only the step its stage is at. */
  lemma OutOfTurn(w: World, p: int)
    ensures (p !in w.starters || w.starters[p].stage != Locked) ==> Step(w, Check(p)) == w
    ensures (p !in w.starters || !w.starters[p].stage.Applying? || w.starters[p].stage.todo == []) ==> Step(w, ApplyNext(p)) == w
    ensures (p !in w.starters || w.starters[p].stage != Applying([])) ==> Step(w, Finish(p)) == w
    ensures p in w.starters ==> forall dir :: Step(w, Start(p, dir)) == w
  {}
}
