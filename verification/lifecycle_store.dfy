/** The deletion and cleanup procedures as the code runs them, statement by statement, over all
    tenants. */
module LifecycleStore {
  import opened Base
  import opened Subscriptions
  import opened Retirement
  import opened Lifecycle

  /** The reads of `archiveTenantUsers`, merged by address. */
  method CollectUsers(s: Slice) returns (users: map<string, Identity>)
    ensures users == Merged(Sources(s))
  {
    hide Merged, FromAccounts, FromPending, FromRegistry, FromUsers;
    var merge := new UserMerge();
    NothingMerged();
    ghost var none := [];
    merge.AddAll(FromAccounts(s.accounts), none);
    assert none + FromAccounts(s.accounts) == FromAccounts(s.accounts);
    merge.AddAll(FromPending(s.pending), FromAccounts(s.accounts));
    merge.AddAll(FromRegistry(s.registry), FromAccounts(s.accounts) + FromPending(s.pending));
    assert ControlSources(s) + none == ControlSources(s);
    if s.db.Some? && s.db.value.hasUsers {
      merge.AddAll(FromUsers(s.db.value.users), ControlSources(s));
    }
    users := merge.users;
  }

  lemma NothingMerged()
    ensures Merged([]) == map[]
  {}

  lemma NothingToArchive(s: Slice, status: Reason, now: int)
    requires Merged(Sources(s)) == map[]
    ensures Archive(s, status, now) == Some(s)
  {
    hide Merged;
    NothingEntered(s.ledger, status, now);
  }

  class Planes {
    /** What the control plane and the tenant's own database hold, by tenant id. */
    var tenants: map<string, Slice>

    /** `archiveTenantUsers` */
    method ArchiveTenantUsers(t: string, status: Reason, now: int) returns (ok: bool)
      requires t in tenants
      modifies this
      ensures ok <==> Archive(old(tenants)[t], status, now).Some?
      ensures tenants == if ok then old(tenants)[t := Archive(old(tenants)[t], status, now).value] else old(tenants)
    {
      hide Merged, Entered, Fits, Sources;
      var s := tenants[t];
      var users := CollectUsers(s);
      if users == map[] {
        NothingToArchive(s, status, now);
        return true;
      }
      var rows := WriteLedger(s.ledger, users, status, now);
      if rows.None? { return false; }
      tenants := tenants[t := s.(ledger := rows.value)];
      ok := true;
    }

    /** Phase 1 of `DeleteTenantDatabase`; None when the deletion stops here. */
    method CloseTenant(t: string, now: int, pick: string, fault: bool) returns (reason: Option<Reason>)
      requires t in tenants
      modifies this
      ensures reason.Some? <==> Deletable(old(tenants)[t], now) && !fault
      ensures reason.Some? ==> tenants == old(tenants)[t := CloseAccess(old(tenants)[t])]
                               && reason.value == ReasonFor(old(tenants)[t], old(tenants)[t].row.value, pick, now)
      ensures reason.None? ==> tenants == old(tenants)
    {
      hide Paid, Pick;
      var s := tenants[t];
      if s.row.None? { return None; }
      var row := s.row.value;
      if Paid(s.subs, s.id) { return None; }
      if row.deletionAt.Some? && row.deletionAt.value > now { return None; }
      var state := RetirementStatus(row.account, Pick(s.subs, Own(s.id)), row.trialExpires, now);
      if row.account == Terminated && pick in s.ledger {
        state := s.ledger[pick].status;
      }
      if fault { return None; }
      if row.account != Terminated {
        row := row.(account := Terminated);
      }
      tenants := tenants[t := s.(row := Some(row))];
      reason := Some(state);
    }

    method DeleteTenantDatabase(t: string, now: int, pick: string, fault: DeleteFault)
      requires t in tenants
      modifies this
      ensures tenants == old(tenants)[t := Delete(old(tenants)[t], now, pick, fault)]
    {
      hide CloseAccess, ReasonFor, Deletable, Archive;
      var reason := CloseTenant(t, now, pick, fault == CloseFails);
      if reason.None? || fault == ReadFails || fault == RecordFails { return; }
      var ok := ArchiveTenantUsers(t, reason.value, now);
      if !ok { return; }
      if fault.DropFails? {
        if fault.marked { tenants := tenants[t := MarkFailed(tenants[t])]; }
        return;
      }
      tenants := tenants[t := tenants[t].(db := None)];
      if fault == RemoveFails { return; }
      tenants := tenants[t := tenants[t].(row := None, subs := [], accounts := [], pending := [])];
    }

    /** Stops at the first tenant whose archive fails, or at `stop`; returns how many it recorded. */
    method RecordExpiredTrialUsers(order: seq<string>, now: int, stop: nat) returns (done: nat)
      requires forall i :: 0 <= i < |order| ==> order[i] in tenants
      requires forall i, j :: 0 <= i < j < |order| ==> order[i] != order[j]
      modifies this
      ensures done <= |order| && tenants.Keys == old(tenants).Keys
      ensures forall i :: 0 <= i < done ==> RecordedTrial(old(tenants)[order[i]], now) == Some(tenants[order[i]])
      ensures forall i :: done <= i < |order| ==> tenants[order[i]] == old(tenants)[order[i]]
      ensures done < |order| && done < stop ==> RecordedTrial(old(tenants)[order[done]], now).None?
      ensures done <= stop
    {
      hide Archive, RecordDue;
      done := 0;
      while done < |order| && done < stop
        invariant done <= |order| && done <= stop && tenants.Keys == old(tenants).Keys
        invariant forall i :: 0 <= i < done ==> RecordedTrial(old(tenants)[order[i]], now) == Some(tenants[order[i]])
        invariant forall i :: done <= i < |order| ==> tenants[order[i]] == old(tenants)[order[i]]
      {
        if RecordDue(tenants[order[done]]) {
          var ok := ArchiveTenantUsers(order[done], TrialExpired, now);
          if !ok { return; }
        }
        done := done + 1;
      }
    }

    /** The two UPDATE statements of `ExpireDueSubscriptions`; a failure of either is ignored. */
    method ExpireDueSubscriptions(now: int, faults: PassFaults)
      modifies this
      ensures tenants.Keys == old(tenants).Keys
      ensures forall t :: t in tenants ==> tenants[t] == AfterSweep(old(tenants)[t], now, faults)
    {
      hide SweepRows, SweepAccount;
      if !faults.rows {
        tenants := map t | t in tenants :: SweepRows(tenants[t], now);
      }
      if !faults.account {
        tenants := map t | t in tenants :: SweepAccount(tenants[t]);
      }
    }

    /** The deletion loop of a cleanup pass. */
    method DeleteDue(order: seq<string>, now: int, picks: map<string, string>, fault: DeleteFault)
      requires forall i :: 0 <= i < |order| ==> order[i] in tenants && order[i] in picks
      requires forall i, j :: 0 <= i < j < |order| ==> order[i] != order[j]
      modifies this
      ensures tenants.Keys == old(tenants).Keys
      ensures forall k :: 0 <= k < |order| ==>
                tenants[order[k]] == DeletedIfDue(old(tenants)[order[k]], now, picks[order[k]], fault)
    {
      hide Delete;
      for i := 0 to |order|
        invariant tenants.Keys == old(tenants).Keys
        invariant forall k :: 0 <= k < i ==> tenants[order[k]] == DeletedIfDue(old(tenants)[order[k]], now, picks[order[k]], fault)
        invariant forall k :: i <= k < |order| ==> tenants[order[k]] == old(tenants)[order[k]]
      {
        var t := order[i];
        if tenants[t].row.Some? && tenants[t].row.value.deletionAt.Some? {
          DeleteTenantDatabase(t, now, picks[t], fault);
        }
      }
    }

    /** One pass over every tenant, in the order the queries list them. `stop` is where an injected
        fault ends the recording, `faults` tells what else fails. For each tenant the pass is one of
        its own `CleanupPass`es; a tenant whose names do not fit ends the pass for those behind it. */
    method CleanupExpiredTrials(order: seq<string>, now: int, picks: map<string, string>, stop: nat, faults: PassFaults)
      returns (done: nat)
      requires !faults.record
      requires forall i :: 0 <= i < |order| ==> order[i] in tenants && order[i] in picks
      requires forall i, j :: 0 <= i < j < |order| ==> order[i] != order[j]
      modifies this
      ensures done <= |order| && done <= stop
      ensures forall i :: 0 <= i < |order| ==>
                order[i] in tenants
                && tenants[order[i]] == CleanupPass(old(tenants)[order[i]], now, picks[order[i]],
                                                    EffectiveFaults(faults, |order|, done, i))
      ensures done < |order| && done < stop ==> !Fits(Merged(Sources(old(tenants)[order[done]])))
    {
      hide RecordedTrial, DeletedIfDue, Sources, Merged, Fits, SweepRows, SweepAccount;
      ExpireDueSubscriptions(now, faults);
      done := RecordExpiredTrialUsers(order, now, stop);
      if done < |order| {
        if done < stop { UnrecordedIsTooWide(old(tenants)[order[done]], now, faults); }
        return;
      }
      if faults.query { return; }
      DeleteDue(order, now, picks, faults.delete);
    }
  }

  /** What a tenant meets in a pass that recorded the first `done` of `n` tenants. */
  function EffectiveFaults(f: PassFaults, n: nat, done: nat, i: nat): PassFaults {
    if done == n then f else if i < done then f.(query := true) else f.(record := true)
  }

  lemma UnrecordedIsTooWide(s: Slice, now: int, f: PassFaults)
    requires RecordedTrial(AfterSweep(s, now, f), now).None?
    ensures !Fits(Merged(Sources(s)))
  {}
}
