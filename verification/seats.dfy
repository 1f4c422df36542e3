/** The seat limit under concurrent `CreateUser` calls, their compensating deletes, and `DeleteUser`. */
module Seats {
  import opened Base

  /** A `CreateUser` call, or, in `Dropped`, a `DeleteUser` call that has deleted the tenant's row and not yet
      the platform account. `Counted` remembers what its count saw: the users, and the rows then dropped.
      `Undoing` has yet to delete the row it inserted. */
  datatype Stage =
    | Waiting | Locked | LimitRead(limit: nat) | Counted(limit: nat, base: set<int>, gone: set<int>)
    | Inserted(id: int) | Undoing(id: int) | Dropped(id: int)

  /** `users` are the ids of the tenant's users, `admin` its administrator's; `holder` has the advisory lock. */
  datatype World = World(admin: int, users: set<int>, nextId: int, holder: Option<int>, calls: map<int, Stage>)

  datatype Action =
    | Begin(p: int)
    | Acquire(p: int)
    | ReadLimit(p: int, limit: nat)
    | Count(p: int)
    | Insert(p: int)
    | Commit(p: int)
    | AccountFails(p: int)
    | CommitFails(p: int)
    | Undo(p: int)
    | Quit(p: int)
    | DropRow(p: int, id: int)
    | Restore(p: int)

  function Leave(w: World, p: int): World {
    w.(calls := w.calls - {p}, holder := if w.holder == Some(p) then None else w.holder)
  }

  function Go(w: World, p: int, stage: Stage): World { w.(calls := w.calls[p := stage]) }

  function StageOf(w: World, p: int): Option<Stage> { Get(w.calls, p) }

  predicate Is(w: World, p: int, ok: Stage -> bool) { p in w.calls && ok(w.calls[p]) }

  /** The rows that deletions in progress have dropped and may still put back. */
  function Gone(calls: map<int, Stage>): set<int> { set p | p in calls && calls[p].Dropped? :: calls[p].id }

  function CountUsers(w: World, p: int, limit: nat): World {
    if |w.users| >= limit then Leave(w, p) else Go(w, p, Counted(limit, w.users, Gone(w.calls)))
  }

  function Step(w: World, a: Action): World {
    match a
    case Begin(p) => if p in w.calls then w else Go(w, p, Waiting)
    case Acquire(p) => if StageOf(w, p) == Some(Waiting) && w.holder.None? then Go(w.(holder := Some(p)), p, Locked) else w
    case ReadLimit(p, limit) => if StageOf(w, p) == Some(Locked) then Go(w, p, LimitRead(limit)) else w
    case Count(p) => if Is(w, p, (s: Stage) => s.LimitRead?) then CountUsers(w, p, w.calls[p].limit) else w
    case Insert(p) =>
      if Is(w, p, (s: Stage) => s.Counted?) then Go(w.(users := w.users + {w.nextId}, nextId := w.nextId + 1), p, Inserted(w.nextId)) else w
    case Commit(p) => if Is(w, p, (s: Stage) => s.Inserted?) then Leave(w, p) else w
    // The transaction, and with it the lock, ends only after the compensating delete.
    case AccountFails(p) => if Is(w, p, (s: Stage) => s.Inserted?) then Go(w, p, Undoing(w.calls[p].id)) else w
    // The failed commit has ended the transaction: the delete runs without the lock.
    case CommitFails(p) => if Is(w, p, (s: Stage) => s.Inserted?) then Go(Leave(w, p), p, Undoing(w.calls[p].id)) else w
    case Undo(p) => if Is(w, p, (s: Stage) => s.Undoing?) then Leave(w.(users := w.users - {w.calls[p].id}), p) else w
    case Quit(p) => Leave(w, p)
    // The administrator cannot be deleted.
    case DropRow(p, id) =>
      if p in w.calls || id !in w.users || id == w.admin then w else Go(w.(users := w.users - {id}), p, Dropped(id))
    case Restore(p) => if Is(w, p, (s: Stage) => s.Dropped?) then Leave(w.(users := w.users + {w.calls[p].id}), p) else w
  }

  function Run(w: World, actions: seq<Action>): World
    decreases actions
  {
    if actions == [] then w else Run(Step(w, actions[0]), actions[1..])
  }

  // ---- What every run keeps ----

  predicate NeedsLock(s: Stage) { s.Locked? || s.LimitRead? || s.Counted? }

  /** Ids are given out once, and the administrator's row is nobody's to delete. */
  ghost predicate IdsKept(w: World) {
    && w.admin in w.users
    && (forall id :: id in w.users ==> id < w.nextId)
    && (forall p :: p in w.calls && (w.calls[p].Inserted? || w.calls[p].Undoing? || w.calls[p].Dropped?) ==>
          w.calls[p].id < w.nextId && w.calls[p].id != w.admin)
  }

  /** Whoever is between taking the lock and inserting holds it, and nothing but what its count saw, as a user
      or as a dropped row, can be a user before it inserts. */
  ghost predicate SeatKept(w: World) { IdsKept(w) && LockKept(w) && CountKept(w) }

  ghost predicate LockKept(w: World) { forall p :: p in w.calls && NeedsLock(w.calls[p]) ==> w.holder == Some(p) }

  ghost predicate CountKept(w: World) {
    forall p :: p in w.calls && w.calls[p].Counted? ==>
      |w.calls[p].base| < w.calls[p].limit && w.users + Gone(w.calls) <= w.calls[p].base + w.calls[p].gone
  }

  /** A step of anybody but the call that counted adds no row to those in the table or dropped. */
  lemma StepKeepsRows(w: World, a: Action)
    requires !a.Insert?
    ensures Step(w, a).users + Gone(Step(w, a).calls) <= w.users + Gone(w.calls)
  {
    var x := Step(w, a);
    forall id | id in Gone(x.calls) ensures id in w.users + Gone(w.calls) {
      var p :| p in x.calls && x.calls[p].Dropped? && x.calls[p].id == id;
    }
  }

  lemma StepKeepsIds(w: World, a: Action)
    requires IdsKept(w)
    ensures IdsKept(Step(w, a))
  {}

  lemma StepKeepsSeat(w: World, a: Action)
    requires SeatKept(w)
    ensures SeatKept(Step(w, a))
  {
    StepKeepsIds(w, a);
    StepKeepsLock(w, a);
    StepKeepsCount(w, a);
    hide Step, IdsKept, LockKept, CountKept;
  }

  lemma StepKeepsLock(w: World, a: Action)
    requires LockKept(w)
    ensures LockKept(Step(w, a))
  {
    hide Gone;
  }

  lemma StepKeepsCount(w: World, a: Action)
    requires LockKept(w) && CountKept(w)
    ensures CountKept(Step(w, a))
  {
    if !a.Insert? { StepKeepsRows(w, a); }
    hide Gone;
  }

  lemma {:induction false} RunKeepsSeat(w: World, actions: seq<Action>)
    requires SeatKept(w)
    ensures SeatKept(Run(w, actions))
    decreases actions
  {
    hide SeatKept, Step;
    if actions != [] {
      StepKeepsSeat(w, actions[0]);
      RunKeepsSeat(Step(w, actions[0]), actions[1..]);
    }
  }

  lemma OneMore(users: set<int>, id: int)
    requires id !in users
    ensures |users + {id}| == |users| + 1
  {}

  lemma PartBounds(users: set<int>, base: set<int>, gone: set<int>)
    requires users <= base + gone
    ensures |users| <= |base| + |users * gone|
  {
    SubsetBound(users - gone, base);
    assert |users| == |users - gone| + |users * gone|;
  }

  lemma {:induction false} SubsetBound(a: set<int>, b: set<int>)
    requires a <= b
    ensures |a| <= |b|
    decreases a
  {
    assert |b| == |a| + |b - a| by { assert b == a + (b - a); }
  }

  /** In every interleaving of creations, failures, compensating deletes and deletions, a call raises the
      tenant's user count above the limit it read by at most one for each row that was dropped when it counted
      and has been put back since. */
  lemma SeatLimit(w: World, actions: seq<Action>, p: int)
    requires SeatKept(w)
    requires p in Run(w, actions).calls && Run(w, actions).calls[p].Counted?
    ensures var x := Run(w, actions);
            |Step(x, Insert(p)).users| <= x.calls[p].limit + |x.users * x.calls[p].gone|
  {
    RunKeepsSeat(w, actions);
    var x := Run(w, actions);
    hide Run;
    assert x.nextId !in x.users;
    OneMore(x.users, x.nextId);
    PartBounds(x.users, x.calls[p].base, x.calls[p].gone);
    hide SeatKept, Gone;
  }

  // ---- The condition, exactly ----

  /** Steps of everybody but this call. */
  ghost predicate OthersOnly(p: int, actions: seq<Action>) {
    forall i :: 0 <= i < |actions| ==> actions[i].p != p
  }

  lemma OthersStep(w: World, a: Action, p: int)
    requires SeatKept(w) && p in w.calls && w.calls[p].Counted? && a.p != p
    ensures var x := Step(w, a);
            && p in x.calls && x.calls[p] == w.calls[p] && SeatKept(x)
            && x.users + Gone(x.calls) <= w.users + Gone(w.calls)
  {
    StepKeepsSeat(w, a);
    if a.Insert? {
      assert a.p in w.calls && w.calls[a.p].Counted? ==> w.holder == Some(a.p);
      assert Step(w, a) == w;
    } else {
      StepKeepsRows(w, a);
    }
    hide Gone;
  }

  lemma {:induction false} OthersRun(w: World, actions: seq<Action>, p: int)
    requires SeatKept(w) && p in w.calls && w.calls[p].Counted? && OthersOnly(p, actions)
    ensures var x := Run(w, actions);
            && p in x.calls && x.calls[p] == w.calls[p] && SeatKept(x)
            && x.users + Gone(x.calls) <= w.users + Gone(w.calls)
    decreases actions
  {
    hide SeatKept, Step, Gone;
    if actions != [] {
      OthersStep(w, actions[0], p);
      OthersRun(Step(w, actions[0]), actions[1..], p);
    }
  }

  lemma RestoreOne(w: World, q: int, p: int)
    requires SeatKept(w) && p in w.calls && w.calls[p].Counted? && q in w.calls && w.calls[q].Dropped?
    ensures var x := Step(w, Restore(q)); x.users + Gone(x.calls) == w.users + Gone(w.calls) && x.nextId == w.nextId
    ensures Step(w, Restore(q)).calls == w.calls - {q}
  {
    var x := Step(w, Restore(q));
    forall id | id in Gone(w.calls) ensures id in x.users + Gone(x.calls) {
      var r :| r in w.calls && w.calls[r].Dropped? && w.calls[r].id == id;
      assert r == q || r in x.calls;
    }
    OthersStep(w, Restore(q), p);
  }

  /** Every deletion in progress may fail. */
  lemma {:induction false} RestoreAll(w: World, p: int) returns (actions: seq<Action>)
    requires SeatKept(w) && p in w.calls && w.calls[p].Counted?
    ensures OthersOnly(p, actions)
    ensures var x := Run(w, actions); x.users == w.users + Gone(w.calls) && x.nextId == w.nextId && p in x.calls && x.calls[p] == w.calls[p]
    decreases |w.calls|
  {
    if q :| q in w.calls && w.calls[q].Dropped? {
      var x := Step(w, Restore(q));
      RestoreOne(w, q, p);
      OthersStep(w, Restore(q), p);
      var rest := RestoreAll(x, p);
      actions := [Restore(q)] + rest;
      assert actions[1..] == rest;
      hide Step, Gone, SeatKept;
    } else {
      actions := [];
      assert Gone(w.calls) == {};
    }
  }

  lemma StaysWithin(w: World, p: int, actions: seq<Action>)
    requires SeatKept(w) && p in w.calls && w.calls[p].Counted? && OthersOnly(p, actions)
    requires |w.users + Gone(w.calls)| < w.calls[p].limit
    ensures |Step(Run(w, actions), Insert(p)).users| <= w.calls[p].limit
  {
    OthersRun(w, actions, p);
    var x := Run(w, actions);
    OneMore(x.users, x.nextId);
    SubsetBound(x.users, w.users + Gone(w.calls));
    hide Run, Gone;
  }

  /** Once a call has counted, its insertion stays within the limit it read in every continuation exactly when
      the users and the rows that deletions in progress may still put back are together below the limit. */
  lemma SeatLimitIff(w: World, p: int)
    requires SeatKept(w) && p in w.calls && w.calls[p].Counted?
    ensures (forall actions :: OthersOnly(p, actions) ==> |Step(Run(w, actions), Insert(p)).users| <= w.calls[p].limit)
            <==> |w.users + Gone(w.calls)| < w.calls[p].limit
  {
    if |w.users + Gone(w.calls)| < w.calls[p].limit {
      forall actions | OthersOnly(p, actions) ensures |Step(Run(w, actions), Insert(p)).users| <= w.calls[p].limit {
        StaysWithin(w, p, actions);
      }
    } else {
      var actions := RestoreAll(w, p);
      OthersRun(w, actions, p);
      var x := Run(w, actions);
      OneMore(x.users, x.nextId);
      hide Run, Gone;
      assert |Step(x, Insert(p)).users| > w.calls[p].limit;
    }
  }

  lemma RunTwo(w: World, a: Action, b: Action, rest: seq<Action>)
    ensures Run(w, [a, b] + rest) == Run(Step(Step(w, a), b), rest)
  {
    hide Step;
    assert ([a, b] + rest)[1..] == [b] + rest && ([b] + rest)[1..] == rest;
  }

  /** A deletion has dropped row `id` and fails; meanwhile a creation counts, then inserts. */
  function Overlap(id: int, limit: nat): seq<Action> {
    [DropRow(7, id), Begin(8)] + ([Acquire(8), ReadLimit(8, limit)] + ([Count(8), Restore(7)] + ([Insert(8), Commit(8)] + [])))
  }

  /** The exception is real: with an administrator, one more user and two seats, a deletion that fails puts its
      row back without the lock, after a creation has counted the seat as free. */
  lemma RestoreCanExceedTheLimit()
    ensures var w := World(1, {1, 2}, 3, None, map[]); SeatKept(w) && |Run(w, Overlap(2, 2)).users| == 3
  {
    var w := World(1, {1, 2}, 3, None, map[]);
    assert Gone(w.calls) == {};
    var w1 := Step(Step(w, DropRow(7, 2)), Begin(8));
    assert w1 == World(1, {1}, 3, None, map[7 := Dropped(2), 8 := Waiting]);
    var w2 := Step(Step(w1, Acquire(8)), ReadLimit(8, 2));
    assert w2 == World(1, {1}, 3, Some(8), map[7 := Dropped(2), 8 := LimitRead(2)]);
    RestoredSeat(w2);
    hide Step;
    RunTwo(w, DropRow(7, 2), Begin(8), [Acquire(8), ReadLimit(8, 2)] + ([Count(8), Restore(7)] + ([Insert(8), Commit(8)] + [])));
    RunTwo(w1, Acquire(8), ReadLimit(8, 2), [Count(8), Restore(7)] + ([Insert(8), Commit(8)] + []));
  }

  lemma RestoredSeat(w: World)
    requires w == World(1, {1}, 3, Some(8), map[7 := Dropped(2), 8 := LimitRead(2)])
    ensures Run(w, [Count(8), Restore(7)] + ([Insert(8), Commit(8)] + [])).users == {1, 2, 3}
  {
    var w3 := Step(Step(w, Count(8)), Restore(7));
    assert w3.users == {1, 2} && w3.nextId == 3 && 8 in w3.calls && w3.calls[8].Counted?;
    var w4 := Step(Step(w3, Insert(8)), Commit(8));
    assert w4.users == {1, 2, 3};
    hide Step;
    RunTwo(w, Count(8), Restore(7), [Insert(8), Commit(8)] + []);
    RunTwo(w3, Insert(8), Commit(8), []);
  }

  // ---- What one call does ----

  lemma {:induction false} RunAppend(w: World, a: seq<Action>, b: seq<Action>)
    ensures Run(w, a + b) == Run(Run(w, a), b)
    decreases a
  {
    hide Step;
    if a == [] {
      assert a + b == b;
    } else {
      assert (a + b)[1..] == a[1..] + b;
      RunAppend(Step(w, a[0]), a[1..], b);
    }
  }

  /** The steps of one creation up to its count. */
  function Counting(p: int, limit: nat): seq<Action> { [Begin(p), Acquire(p)] + ([ReadLimit(p, limit), Count(p)] + []) }

  /** With the lock free, a creation passes its count exactly when the users are below the limit; else it ends,
      the lock is free again and no user has come or gone. */
  lemma CountingOutcome(w: World, p: int, limit: nat)
    requires p !in w.calls && w.holder.None?
    ensures Run(w, Counting(p, limit))
            == if |w.users| < limit then w.(holder := Some(p), calls := w.calls[p := Counted(limit, w.users, Gone(w.calls))]) else w
  {
    var x := Step(Step(w, Begin(p)), Acquire(p));
    assert x == w.(holder := Some(p), calls := w.calls[p := Locked]);
    var y := Step(x, ReadLimit(p, limit));
    assert y == w.(holder := Some(p), calls := w.calls[p := LimitRead(limit)]);
    assert y.calls - {p} == w.calls;
    var counted := Counted(limit, w.users, Gone(w.calls));
    assert y.calls[p := counted] == w.calls[p := counted];
    SameGone(w.calls, p, LimitRead(limit));
    RunTwo(w, Begin(p), Acquire(p), [ReadLimit(p, limit), Count(p)] + []);
    RunTwo(x, ReadLimit(p, limit), Count(p), []);
    hide Gone;
  }

  lemma SameGone(calls: map<int, Stage>, p: int, stage: Stage)
    requires p !in calls && !stage.Dropped?
    ensures Gone(calls[p := stage]) == Gone(calls)
  {
    var after := calls[p := stage];
    forall id | id in Gone(calls) ensures id in Gone(after) {
      var q :| q in calls && calls[q].Dropped? && calls[q].id == id;
      assert q in after && after[q] == calls[q];
    }
    forall id | id in Gone(after) ensures id in Gone(calls) {
      var q :| q in after && after[q].Dropped? && after[q].id == id;
      assert q in calls && calls[q] == after[q];
    }
  }

  /** A creation that has counted adds one user under a fresh id, and its commit ends it with the lock free. */
  lemma CreationOutcome(w: World, p: int)
    requires p in w.calls && w.calls[p].Counted? && w.holder == Some(p)
    ensures Step(Step(w, Insert(p)), Commit(p))
            == w.(users := w.users + {w.nextId}, nextId := w.nextId + 1, holder := None, calls := w.calls - {p})
  {
    assert w.calls[p := Inserted(w.nextId)] - {p} == w.calls - {p};
  }

  /** A creation whose account or commit fails takes its user back; when the commit has failed, the lock is free
      before the user is gone. */
  lemma CompensationOutcome(w: World, p: int, x: World)
    requires p in w.calls && w.calls[p].Inserted? && w.holder == Some(p)
    requires x in {Step(w, AccountFails(p)), Step(w, CommitFails(p))}
    ensures x.users == w.users && x.nextId == w.nextId && x.holder == if x == Step(w, CommitFails(p)) then None else Some(p)
    ensures Step(x, Undo(p)) == w.(users := w.users - {w.calls[p].id}, holder := None, calls := w.calls - {p})
  {
    assert w.calls[p := Undoing(w.calls[p].id)] - {p} == w.calls - {p};
    assert (w.calls - {p})[p := Undoing(w.calls[p].id)] - {p} == w.calls - {p};
  }

  /** A deletion takes its row out and, when the account stays, puts it back; the lock plays no part. */
  lemma DeletionOutcome(w: World, p: int, id: int)
    requires p !in w.calls && id in w.users && id != w.admin && w.holder != Some(p)
    ensures var x := Step(w, DropRow(p, id));
            && x.users == w.users - {id} && x.holder == w.holder && x.nextId == w.nextId
            && Step(x, Restore(p)) == w && Step(x, Quit(p)) == w.(users := w.users - {id})
  {
    assert w.calls[p := Dropped(id)] - {p} == w.calls;
    assert w.users - {id} + {id} == w.users;
  }

  /** A call runs only the step it is at, and takes the lock only when it is free. */
  lemma OutOfTurn(w: World, p: int)
    ensures p in w.calls ==> Step(w, Begin(p)) == w && forall id :: Step(w, DropRow(p, id)) == w
    ensures forall id :: id !in w.users || id == w.admin ==> Step(w, DropRow(p, id)) == w
    ensures w.holder.Some? || p !in w.calls || w.calls[p] != Waiting ==> Step(w, Acquire(p)) == w
    ensures p !in w.calls || w.calls[p] != Locked ==> forall limit :: Step(w, ReadLimit(p, limit)) == w
    ensures p !in w.calls || !w.calls[p].LimitRead? ==> Step(w, Count(p)) == w
    ensures p !in w.calls || !w.calls[p].Counted? ==> Step(w, Insert(p)) == w
    ensures p !in w.calls || !w.calls[p].Inserted? ==> Step(w, Commit(p)) == w && Step(w, AccountFails(p)) == w && Step(w, CommitFails(p)) == w
    ensures p !in w.calls || !w.calls[p].Undoing? ==> Step(w, Undo(p)) == w
    ensures p !in w.calls || !w.calls[p].Dropped? ==> Step(w, Restore(p)) == w
  {}
}
