/** The gate of `LoginUser` on retired users, and what the retirement ledger means for it. */
module Login {
  import opened Base
  import opened Text
  import opened Subscriptions
  import opened Retirement
  import opened Lifecycle
  import LifecycleOutcomes

  /** Reasons that end a login. An expired trial is not one of them. */
  predicate Closing(r: Reason) { r == AccountDeleted || r == Discontinued || r == LegacyUnknown }

  predicate RetiredFor(ledger: RetiredUsers, email: string) {
    exists e :: e in ledger && ToLower(e) == ToLower(email) && Closing(ledger[e].status)
  }

  /** An account with this address whose tenant pays. */
  predicate PaidFor(s: Slice, email: string, now: int) {
    && (exists i :: 0 <= i < |s.accounts| && ToLower(s.accounts[i].email) == ToLower(email))
    && (exists i :: 0 <= i < |s.subs| && s.subs[i].tenant == s.id && (s.subs[i].status == Active || s.subs[i].status == PastDue)
                    && (s.subs[i].endsAt.None? || s.subs[i].endsAt.value >= now))
  }

  /** Some tenant's retired users include this address. */
  predicate ClosedBy(tenants: map<string, Slice>, email: string) {
    exists t :: t in tenants && RetiredFor(tenants[t].ledger, email)
  }

  /** The first query of `LoginUser`, over the rows of all tenants, finds one and refuses the login. */
  predicate LockedOut(tenants: map<string, Slice>, email: string, now: int) {
    ClosedBy(tenants, email) && forall t :: t in tenants ==> !PaidFor(tenants[t], email, now)
  }

  /** The login is refused on account of this tenant's retired users alone. */
  predicate RefusedThrough(others: map<string, Slice>, s: Slice, email: string, now: int) {
    s.id !in others && LockedOut(others[s.id := s], email, now) && !ClosedBy(others, email)
  }

  /** A ledger that only tells of expired trials closes no login. */
  lemma TrialLedgerClosesNothing(others: map<string, Slice>, s: Slice, email: string, now: int)
    requires AllStatus(s.ledger, TrialExpired)
    ensures !RefusedThrough(others, s, email, now)
  {
    hide ToLower, PaidFor;
    assert !RetiredFor(s.ledger, email);
    if s.id !in others && ClosedBy(others[s.id := s], email) {
      var t :| t in others[s.id := s] && RetiredFor(others[s.id := s][t].ledger, email);
      assert t in others && others[t] == others[s.id := s][t];
    }
  }

  /** The retired users of a tenant that only ever had its trial refuse nobody, whatever passes, failures
      and activity follow while no sweep is missed too early: an expired trial can still sign in to
      subscribe. */
  lemma TrialUsersAreNotLockedOut(s: Slice, turns: seq<Turn>, others: map<string, Slice>, email: string, now: int)
    requires TrialTenant(s) && SteadyTurns(s, turns)
    ensures !RefusedThrough(others, TakeTurns(s, turns), email, now)
  {
    TrialLedgerIsStable(s, turns);
    TrialLedgerClosesNothing(others, TakeTurns(s, turns), email, now);
  }

  lemma PassKeepsId(s: Slice, p: Pass)
    ensures CleanupPass(s, p.now, p.pick, p.faults).id == s.id
  {
    hide Archived, Merged, Sources, RecordDue, ReasonFor, Deletable, SweepSubs, Lapsed;
  }

  lemma PassSweepsOrClears(s: Slice, p: Pass)
    ensures var t := CleanupPass(s, p.now, p.pick, p.faults); t.subs == AfterSweep(s, p.now, p.faults).subs || t.subs == []
  {
    hide AfterSweep, Archived, Merged, Sources, RecordDue, ReasonFor, Deletable;
  }

  lemma PassKeepsUnpaid(s: Slice, p: Pass)
    requires !Paid(s.subs, s.id)
    ensures var t := CleanupPass(s, p.now, p.pick, p.faults); t.id == s.id && !Paid(t.subs, t.id)
  {
    SweepsKeepUnpaid(s, p.now, p.faults);
    PassKeepsId(s, p);
    PassSweepsOrClears(s, p);
    hide AfterSweep, CleanupPass;
  }

  lemma {:induction false} PassesKeepUnpaid(s: Slice, passes: seq<Pass>)
    requires !Paid(s.subs, s.id)
    ensures var t := RunPasses(s, passes); t.id == s.id && !Paid(t.subs, t.id)
    decreases passes
  {
    if passes != [] {
      PassKeepsUnpaid(s, passes[0]);
      hide CleanupPass, Paid;
      PassesKeepUnpaid(CleanupPass(s, passes[0].now, passes[0].pick, passes[0].faults), passes[1..]);
    }
  }

  /** A ledger with any other reason refuses someone whose tenant does not pay. */
  lemma OtherReasonLocksOut(s: Slice, now: int) returns (e: string)
    requires !AllStatus(s.ledger, TrialExpired) && !Paid(s.subs, s.id)
    ensures LockedOut(map[s.id := s], e, now)
  {
    hide ToLower;
    e :| e in s.ledger && s.ledger[e].status != TrialExpired;
    assert RetiredFor(s.ledger, e);
    var all := map[s.id := s];
    assert s.id in all && RetiredFor(all[s.id].ledger, e);
  }

  lemma SomeoneIsLockedOut(s: Slice, passes: seq<Pass>)
    requires !Paid(s.subs, s.id) && !AllStatus(RunPasses(s, passes).ledger, TrialExpired)
    ensures exists others, email, now :: RefusedThrough(others, RunPasses(s, passes), email, now)
  {
    PassesKeepUnpaid(s, passes);
    hide RunPasses, RetiredFor, PaidFor, Paid;
    var t := RunPasses(s, passes);
    var e := OtherReasonLocksOut(t, 0);
    var none: map<string, Slice> := map[];
    assert none[t.id := t] == map[t.id := t];
    assert RefusedThrough(none, t, e, 0);
  }

  /** Two missed sweeps cost exactly that: an address of an expired trial is locked out. */
  lemma MissedSweepsLockOut(s: Slice, now: int, pick: string)
    requires TrialTenant(s) && DueForDeletion(s, now) && s.ledger == map[] && Fits(Merged(Sources(s)))
    requires Pick(s.subs, Own(s.id)).Some? && Pick(s.subs, Own(s.id)).value.status == Trial
    ensures var t := RunPasses(s, [Pass(now, pick, MISSED_SWEEP), Pass(now, pick, MISSED_SWEEP_AGAIN)]);
            exists others, email, at :: RefusedThrough(others, t, email, at)
  {
    MissedSweepsLoseTheReason(s, now, pick);
    var passes := [Pass(now, pick, MISSED_SWEEP), Pass(now, pick, MISSED_SWEEP_AGAIN)];
    var l := RunPasses(s, passes).ledger;
    hide RunPasses, TrialTenant, Merged, Fits, Sources, Pick, RefusedThrough;
    assert (forall e :: e !in l) ==> l == map[];
    var e :| e in l;
    assert l[e].status == AccountDeleted;
    SomeoneIsLockedOut(s, passes);
  }

  /** Whatever the other tenants are and whatever the passes miss, this tenant's retired users refuse
      nobody, exactly when its row is gone, it is anchored, or an address too long for the ledger
      keeps anything from being recorded. */
  lemma TrialUsersAreNotLockedOutIff(s: Slice)
    requires TrialTenant(s)
    ensures (forall passes, others, email, now :: NewestPasses(s, passes) ==> !RefusedThrough(others, RunPasses(s, passes), email, now))
            <==> s.row.None? || Anchored(s) || !Fits(Merged(Sources(s)))
  {
    TrialLedgerIsStableIff(s);
    if s.row.Some? { LatestIsTrial(s); }
    hide Fits, Merged, Sources, RunPasses, NewestPasses, Anchored, TrialTenant, RefusedThrough, Paid, Lapsed, Pick;
    if s.row.None? || Anchored(s) || !Fits(Merged(Sources(s))) {
      forall passes, others, email, now | NewestPasses(s, passes) ensures !RefusedThrough(others, RunPasses(s, passes), email, now) {
        assert AllStatus(RunPasses(s, passes).ledger, TrialExpired);
        TrialLedgerClosesNothing(others, RunPasses(s, passes), email, now);
      }
    } else {
      var passes :| NewestPasses(s, passes) && !AllStatus(RunPasses(s, passes).ledger, TrialExpired);
      SomeoneIsLockedOut(s, passes);
    }
  }

  lemma DeletionCloses(s: Slice, now: int, pick: string, e: string)
    requires Deletable(s, now) && ReasonFor(s, s.row.value, pick, now) != TrialExpired && Fits(Merged(Sources(s)))
    requires e in Merged(Sources(s))
    ensures var t := Delete(s, now, pick, Unfaulted); RetiredFor(t.ledger, e) && t.accounts == []
  {
    var reason := ReasonFor(s, s.row.value, pick, now);
    LifecycleOutcomes.DeletionOutcome(s, now, pick, Unfaulted);
    MergedKeyed(Sources(s));
    hide Merged, Sources, Fits, Entered, ReasonFor, Deletable, ToLower, Emails, Delete;
    ArchiveCovers(s.ledger, Merged(Sources(s)), reason, now);
    var t := Delete(s, now, pick, Unfaulted);
    assert e in t.ledger && Closing(t.ledger[e].status);
  }

  /** Once a tenant that was not an expired trial is deleted, every address its archive read is locked out
      for good, unless a paying tenant has an account for it. */
  lemma DeletedUsersAreLockedOut(s: Slice, now: int, pick: string, others: map<string, Slice>, e: string, when: int)
    requires Deletable(s, now) && ReasonFor(s, s.row.value, pick, now) != TrialExpired && Fits(Merged(Sources(s)))
    requires e in Merged(Sources(s)) && s.id !in others
    ensures LockedOut(others[s.id := Delete(s, now, pick, Unfaulted)], e, when) <==> forall t :: t in others ==> !PaidFor(others[t], e, when)
  {
    DeletionCloses(s, now, pick, e);
    var t := Delete(s, now, pick, Unfaulted);
    assert !PaidFor(t, e, when);
    hide RetiredFor, PaidFor, Delete, ReasonFor, Deletable, Merged, Sources, Fits;
    var tenants := others[s.id := t];
    assert tenants[s.id] == t && forall o :: o in others ==> tenants[o] == others[o];
  }

  /** The gate in full: some tenant's ledger has the address, in any case, for another reason than an expired
      trial, and no tenant with an account of the address has an active or overdue subscription that has not
      ended. */
  lemma GateIff(tenants: map<string, Slice>, email: string, now: int)
    ensures LockedOut(tenants, email, now) <==>
              && (exists t, e :: t in tenants && e in tenants[t].ledger && ToLower(e) == ToLower(email) && tenants[t].ledger[e].status != TrialExpired)
              && (forall t, i, k :: t in tenants && 0 <= i < |tenants[t].accounts| && ToLower(tenants[t].accounts[i].email) == ToLower(email)
                    && 0 <= k < |tenants[t].subs| && tenants[t].subs[k].tenant == tenants[t].id && tenants[t].subs[k].status in {Active, PastDue}
                    ==> tenants[t].subs[k].endsAt.Some? && tenants[t].subs[k].endsAt.value < now)
  {
    hide ToLower;
    forall t | t in tenants ensures RetiredFor(tenants[t].ledger, email) <==> exists e ::
        e in tenants[t].ledger && ToLower(e) == ToLower(email) && tenants[t].ledger[e].status != TrialExpired {}
  }
}
