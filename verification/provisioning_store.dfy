/** Recovery as the code runs it: `ProvisionCurrentTenant` with `ProvisionTenantDatabase` inside. */
module ProvisioningStore {
  import opened Base
  import opened Provisioning

  /** The steps up to the one that fails, and what the failure does. */
  function Faulted(steps: seq<Action>, fault: nat, p: int, marked: bool): seq<Action> {
    if fault < |steps| then steps[..fault] + [Fault(p, marked)] else steps
  }

  /** A recovery that started in `w` has executed its first `k` statements: the tables hold `x`, and the
      attempt has reached `stage`. */
  predicate Reached(w: World, p: int, k: nat, x: World, stage: Stage) {
    && k <= |Recovery(w, p)|
    && Alone(Run(w, Recovery(w, p)[..k]), p, stage)
    && x == Run(w, Recovery(w, p)[..k]).(attempts := map[], holder := None)
  }

  lemma NextStep(w: World, p: int, k: nat, a: Action)
    requires k < |Recovery(w, p)| && Recovery(w, p)[k] == a
    ensures Run(w, Recovery(w, p)[..k + 1]) == Step(Run(w, Recovery(w, p)[..k]), a)
  {
    var steps := Recovery(w, p);
    assert steps[..k + 1] == steps[..k] + [a];
    RunAppend(w, steps[..k], [a]);
    RunOne(Run(w, steps[..k]), a);
  }

  function AfterFault(x: World, stage: Stage, marked: bool): World {
    x.(status := if marked && Inside(stage) && stage != Holding then Failed else x.status)
  }

  lemma FaultHere(w: World, p: int, k: nat, x: World, stage: Stage, marked: bool)
    requires Reached(w, p, k, x, stage) && k < |Recovery(w, p)| && stage != Failing
    ensures Run(w, Faulted(Recovery(w, p), k, p, marked)) == AfterFault(x, stage, marked)
  {
    var y := Run(w, Recovery(w, p)[..k]);
    RunAppend(w, Recovery(w, p)[..k], [Fault(p, marked)]);
    RunOne(y, Fault(p, marked));
    assert y.attempts - {p} == map[];
    hide Run, Recovery;
  }

  lemma ApplyReached(w: World, p: int, k: nat, x: World)
    requires k <= Remaining(w) && Reached(w, p, 4 + k, x, HasDb) && x.db.Some?
    ensures x.db.value.applied < x.total ==>
              Reached(w, p, 5 + k, x.(db := Some(x.db.value.(applied := x.db.value.applied + 1))), HasDb)
    ensures x.db.value.applied >= x.total ==> Reached(w, p, 5 + k, x, SchemaDone)
  {
    assert Recovery(w, p)[4 + k] == ApplyNext(p);
    NextStep(w, p, 4 + k, ApplyNext(p));
    hide Run, Recovery;
  }

  lemma OpeningReached(w: World, p: int, k: nat, x: World)
    requires Idle(w) && w.pending
    requires 1 <= k <= 3
    requires k > 1 ==> Reached(w, p, k, x, if k == 2 then Holding else Marked)
    ensures k == 1 ==> Reached(w, p, 1, w, Queued) && Reached(w, p, 2, w, Holding)
    ensures k == 2 ==> Reached(w, p, 3, x.(status := InProgress), Marked)
    ensures k == 3 ==> Reached(w, p, 4, x.(db := if x.db.None? then Some(TenantDb(0, [], 1)) else x.db), HasDb)
  {
    if k == 1 {
      assert Run(w, Recovery(w, p)[..0]) == w;
      NextStep(w, p, 0, Begin(p, false, true));
      NextStep(w, p, 1, Acquire(p));
    } else {
      NextStep(w, p, k, if k == 2 then Mark(p) else EnsureDb(p));
    }
    hide Run, Recovery;
  }

  lemma SeedReached(w: World, p: int, x: World)
    requires Reached(w, p, 5 + Remaining(w), x, SchemaDone) && x.db.Some?
    ensures var d := PutUser(x.db.value, x.who); Reached(w, p, 6 + Remaining(w), x.(db := Some(d)), Seeded(IdOf(d.users, x.who.email)))
  {
    assert Recovery(w, p)[5 + Remaining(w)] == PutAdmin(p);
    NextStep(w, p, 5 + Remaining(w), PutAdmin(p));
    hide Run, Recovery, PutUser, IdOf;
  }

  lemma SyncReached(w: World, p: int, x: World, id: int)
    requires Reached(w, p, 6 + Remaining(w), x, Seeded(id)) && x.db.Some?
    ensures Reached(w, p, 7 + Remaining(w), x.(db := Some(x.db.value.(nextId := MaxId(x.db.value.users) + 1))), Synced(id))
  {
    assert Recovery(w, p)[6 + Remaining(w)] == SyncIds(p);
    NextStep(w, p, 6 + Remaining(w), SyncIds(p));
    hide Run, Recovery, MaxId;
  }

  lemma FinishReached(w: World, p: int, x: World, id: int)
    requires Reached(w, p, 7 + Remaining(w), x, Synced(id))
    ensures Reached(w, p, 8 + Remaining(w), x.(status := Ready), Provisioned(id))
  {
    assert Recovery(w, p)[7 + Remaining(w)] == MarkReady(p);
    NextStep(w, p, 7 + Remaining(w), MarkReady(p));
    hide Run, Recovery;
  }

  lemma AccountReached(w: World, p: int, x: World, id: int)
    requires Reached(w, p, 8 + Remaining(w), x, Provisioned(id)) && !Taken(x.accounts, AccountRow(x, id))
    ensures Reached(w, p, 9 + Remaining(w), x.(accounts := UpsertAccount(x.accounts, AccountRow(x, id))), AccountDone)
  {
    assert Recovery(w, p)[8 + Remaining(w)] == PutAccount(p);
    NextStep(w, p, 8 + Remaining(w), PutAccount(p));
    hide Run, Recovery, Taken, UpsertAccount;
  }

  lemma TakenLeaves(w: World, p: int, x: World, id: int)
    requires Reached(w, p, 8 + Remaining(w), x, Provisioned(id)) && Taken(x.accounts, AccountRow(x, id))
    ensures Run(w, Recovery(w, p)[..9 + Remaining(w)]) == x && x.attempts == map[]
  {
    assert Recovery(w, p)[8 + Remaining(w)] == PutAccount(p);
    NextStep(w, p, 8 + Remaining(w), PutAccount(p));
    hide Run, Recovery, Taken, UpsertAccount;
    assert Run(w, Recovery(w, p)[..8 + Remaining(w)]).attempts - {p} == map[];
  }

  /** Without an attempt there is nothing left to clear or to fail. */
  lemma TakenEndsRecovery(w: World, p: int, x: World, id: int, marked: bool)
    requires Reached(w, p, 8 + Remaining(w), x, Provisioned(id)) && Taken(x.accounts, AccountRow(x, id))
    ensures Run(w, Recovery(w, p)) == x && Run(w, Faulted(Recovery(w, p), 9 + Remaining(w), p, marked)) == x
  {
    var steps, n := Recovery(w, p), 9 + Remaining(w);
    assert steps[n] == ClearPending(p);
    TakenLeaves(w, p, x, id);
    NextStep(w, p, n, ClearPending(p));
    assert steps[..n + 1] == steps;
    RunAppend(w, steps[..n], [Fault(p, marked)]);
    RunOne(x, Fault(p, marked));
    hide Run, Recovery, Taken, Reached;
  }

  lemma ClearReached(w: World, p: int, x: World)
    requires Reached(w, p, 9 + Remaining(w), x, AccountDone)
    ensures Run(w, Recovery(w, p)) == x.(pending := false)
  {
    var steps, n := Recovery(w, p), 9 + Remaining(w);
    assert steps[n] == ClearPending(p);
    NextStep(w, p, n, ClearPending(p));
    assert steps[..n + 1] == steps;
    hide Run, Recovery;
    assert Run(w, steps[..n]).attempts - {p} == map[];
  }

  lemma FaultBeforeLock(w: World, p: int, fault: nat, marked: bool)
    requires Idle(w) && w.pending && fault <= 2
    ensures Run(w, Faulted(Recovery(w, p), fault, p, marked)) == w
  {
    if fault == 0 {
      assert Faulted(Recovery(w, p), 0, p, marked) == [Fault(p, marked)];
      RunOne(w, Fault(p, marked));
    } else {
      OpeningReached(w, p, 1, w);
      FaultHere(w, p, fault, w, if fault == 1 then Queued else Holding, marked);
    }
    hide Run, Recovery;
  }

  class Tenancy {
    const tenant: string
    const total: nat
    const who: Registrant
    var status: Status
    var db: Option<TenantDb>
    var accounts: set<PlatformAccount>
    var pending: bool

    function State(): World
      reads this
    {
      World(tenant, total, who, status, db, accounts, pending, None, map[])
    }

    predicate Usable()
      reads this
    {
      db.Some? ==> db.value.applied <= total
    }

    /** The deferred statement of a failed attempt, which may fail too. */
    method Abort(marked: bool)
      modifies this`status
      ensures status == if marked then Failed else old(status)
    {
      if marked { status := Failed; }
    }

    /** Applies the missing definitions, one transaction each. */
    method InitializeTenantSchema(ghost w: World, p: int, fault: nat, marked: bool) returns (ok: bool, at: nat)
      requires db.Some? && db.value.applied + Remaining(w) == total && fault >= 4
      requires Reached(w, p, 4, State(), HasDb)
      modifies this`db, this`status
      ensures ok ==> Reached(w, p, 5 + Remaining(w), State(), SchemaDone) && fault >= at == 5 + Remaining(w) && db.Some?
      ensures !ok ==> State() == Run(w, Faulted(Recovery(w, p), fault, p, marked))
    {
      hide Run, Recovery, Faulted, Reached, Remaining;
      ghost var k: nat := 0;
      ok, at := false, 4;
      while db.value.applied < total
        invariant k <= Remaining(w) && at == 4 + k && at <= fault
        invariant db.Some? && db.value.applied + (Remaining(w) - k) == total
        invariant Reached(w, p, 4 + k, State(), HasDb)
        decreases Remaining(w) - k
      {
        ApplyReached(w, p, k, State());
        FaultHere(w, p, 4 + k, State(), HasDb, marked);
        if fault == at {
          Abort(marked);
          return;
        }
        db := Some(db.value.(applied := db.value.applied + 1));
        k, at := k + 1, at + 1;
      }
      ApplyReached(w, p, k, State());
      FaultHere(w, p, 4 + k, State(), HasDb, marked);
      if fault == at {
        Abort(marked);
        return;
      }
      ok, at := true, at + 1;
    }

    /** The administrator's row, the id sequence and READY. */
    method SeedAdministrator(ghost w: World, p: int, fault: nat, marked: bool, at: nat) returns (id: Option<int>)
      requires db.Some? && fault >= at == 5 + Remaining(w) && Reached(w, p, at, State(), SchemaDone)
      modifies this`db, this`status
      ensures id.Some? ==> Reached(w, p, at + 3, State(), Provisioned(id.value)) && fault >= at + 3
      ensures id.None? ==> State() == Run(w, Faulted(Recovery(w, p), fault, p, marked))
    {
      id := None;
      hide Run, Recovery, Faulted, Reached, Remaining, PutUser, IdOf, MaxId;
      FaultHere(w, p, at, State(), SchemaDone, marked);
      SeedReached(w, p, State());
      if fault == at { Abort(marked); return; }
      db := Some(PutUser(db.value, who));
      var admin := IdOf(db.value.users, who.email);
      FaultHere(w, p, at + 1, State(), Seeded(admin), marked);
      SyncReached(w, p, State(), admin);
      if fault == at + 1 { Abort(marked); return; }
      db := Some(db.value.(nextId := MaxId(db.value.users) + 1));
      FaultHere(w, p, at + 2, State(), Synced(admin), marked);
      FinishReached(w, p, State(), admin);
      if fault == at + 2 { Abort(marked); return; }
      status := Ready;
      id := Some(admin);
    }

    /** `ProvisionCurrentTenant` in recovery; `fault` is the statement that fails, if any does, and
        `marked` tells whether the FAILED status is then recorded. */
    method ProvisionCurrentTenant(p: int, fault: nat, marked: bool)
      requires Usable()
      modifies this
      ensures State() == if old(pending) then Run(old(State()), Faulted(Recovery(old(State()), p), fault, p, marked)) else old(State())
    {
      hide Run, Recovery, Faulted, Reached, UpsertAccount, Taken;
      if !pending { return; }
      ghost var w := State();
      if fault <= 2 {
        FaultBeforeLock(w, p, fault, marked);
        return;
      }
      OpeningReached(w, p, 1, w);
      OpeningReached(w, p, 2, w);
      status := InProgress;
      FaultHere(w, p, 3, State(), Marked, marked);
      OpeningReached(w, p, 3, State());
      if fault == 3 { Abort(marked); return; }
      if db.None? { db := Some(TenantDb(0, [], 1)); }
      var ok, at := InitializeTenantSchema(w, p, fault, marked);
      if !ok { return; }
      var id := SeedAdministrator(w, p, fault, marked, at);
      if id.None? { return; }
      FinalizeAccount(w, p, fault, marked, at + 3, id.value);
    }

    /** The platform account, and the end of the pending registration. */
    method FinalizeAccount(ghost w: World, p: int, fault: nat, marked: bool, at: nat, id: int)
      requires fault >= at == 8 + Remaining(w) && Reached(w, p, at, State(), Provisioned(id))
      modifies this`accounts, this`pending
      ensures State() == Run(w, Faulted(Recovery(w, p), fault, p, marked))
    {
      var row := PlatformAccount(tenant, id, who.email, "admin");
      FaultHere(w, p, at, State(), Provisioned(id), marked);
      if fault == at { return; }
      if Taken(accounts, row) {
        TakenEndsRecovery(w, p, State(), id, marked);
        return;
      }
      AccountReached(w, p, State(), id);
      accounts := UpsertAccount(accounts, row);
      FaultHere(w, p, at + 1, State(), AccountDone, marked);
      if fault == at + 1 { return; }
      ClearReached(w, p, State());
      pending := false;
    }
  }
}
