/** What a deletion leaves behind, told from the rows it finds: the tables after every fault, the reason,
    and the identities of the ledger. */
module LifecycleOutcomes {
  import opened Base
  import opened Text
  import opened Subscriptions
  import opened Retirement
  import opened Lifecycle

  // ---- When nothing happens ----

  /** A tenant without a row, with a paying subscription, or still within its retention window is left alone,
      whatever fails. */
  lemma EarlyDeletionDoesNothing(s: Slice, now: int, pick: string, fault: DeleteFault)
    requires s.row.None? || (s.row.value.deletionAt.Some? && now < s.row.value.deletionAt.value)
             || exists i :: 0 <= i < |s.subs| && s.subs[i].tenant == s.id && s.subs[i].status in {Active, PastDue}
    ensures Delete(s, now, pick, fault) == s && DeletedIfDue(s, now, pick, fault) == s
  {}

  /** The cleanup deletes no tenant whose retention window is open-ended. */
  lemma OpenEndedStays(s: Slice, now: int, pick: string, fault: DeleteFault)
    requires s.row.Some? && s.row.value.deletionAt.None?
    ensures DeletedIfDue(s, now, pick, fault) == s
  {}

  // ---- What each statement leaves ----

  /** The part of the tables a deletion never touches. */
  ghost predicate SameRegistry(s: Slice, t: Slice) { t.id == s.id && t.registry == s.registry }

  ghost predicate SameOperational(s: Slice, t: Slice) {
    SameRegistry(s, t) && t.subs == s.subs && t.accounts == s.accounts && t.pending == s.pending
  }

  /** A due deletion that goes through takes the database, the tenant row and every operational row, and
      leaves the registry; one that fails leaves everything from the failing statement on, with the tenant
      closed and, once DROP DATABASE has failed and this could be recorded, marked failed. */
  lemma DeletionOutcome(s: Slice, now: int, pick: string, fault: DeleteFault)
    requires Deletable(s, now) && Fits(Merged(Sources(s)))
    ensures var t := Delete(s, now, pick, fault);
            && SameRegistry(s, t)
            && (fault.Unfaulted? ==> t.row.None? && t.db.None? && t.subs == [] && t.accounts == [] && t.pending == [])
            && (fault.CloseFails? ==> t == s)
            && (!fault.Unfaulted? ==> SameOperational(s, t) && (t.db == if fault.RemoveFails? then None else s.db))
            && (!fault.Unfaulted? && !fault.CloseFails? ==>
                  && t.row.Some? && t.row.value.account == Terminated
                  && t.row.value.trialExpires == s.row.value.trialExpires && t.row.value.deletionAt == s.row.value.deletionAt
                  && t.row.value.provisioning == if fault == DropFails(true) then Failed else s.row.value.provisioning)
            && (fault.CloseFails? || fault.ReadFails? || fault.RecordFails? ==> t.ledger == s.ledger)
            && (fault.Unfaulted? || fault.DropFails? || fault.RemoveFails? ==>
                  t.ledger == Entered(s.ledger, Merged(Sources(s)), ReasonFor(s, s.row.value, pick, now), now))
  {
    SameSources(s);
    hide Merged, Fits, Entered, ReasonFor, Paid, Sources;
  }

  lemma SameSources(s: Slice)
    ensures Sources(CloseAccess(s)) == Sources(s)
  {}

  /** Where a name does not fit, nothing is lost: the tenant is closed and the rest stays. */
  lemma TooWideDeletionOnlyCloses(s: Slice, now: int, pick: string, fault: DeleteFault)
    requires Deletable(s, now) && !Fits(Merged(Sources(s))) && !fault.CloseFails?
    ensures Delete(s, now, pick, fault) == s.(row := Some(s.row.value.(account := Terminated)))
  {
    SameSources(s);
    hide Merged, Fits, Entered, ReasonFor, Paid, Sources;
  }

  lemma {:induction false} RegistryThroughPasses(s: Slice, passes: seq<Pass>)
    ensures SameRegistry(s, RunPasses(s, passes))
    decreases passes
  {
    if passes != [] {
      RegistryThroughPass(s, passes[0]);
      hide CleanupPass;
      RegistryThroughPasses(CleanupPass(s, passes[0].now, passes[0].pick, passes[0].faults), passes[1..]);
    }
  }

  lemma RegistryThroughPass(s: Slice, p: Pass)
    ensures SameRegistry(s, CleanupPass(s, p.now, p.pick, p.faults))
  {
    hide Archived, Merged, Sources, RecordDue, ReasonFor, Deletable, SweepSubs, Lapsed;
  }

  /** Retried after any failures, a deletion ends with nothing left of the tenant but its registry and its
      ledger, which has every address an archive ever entered. */
  lemma RetriedDeletionLeavesRegistry(s: Slice, passes: seq<Pass>, now: int, pick: string)
    requires DueForDeletion(s, now) && FitsThroughout(s)
    ensures var t := CleanupPass(RunPasses(s, passes), now, pick, NO_FAULTS);
            t.row.None? && t.db.None? && t.subs == [] && t.accounts == [] && t.pending == [] && t.registry == s.registry
  {
    RetryingFinishesIff(s, now);
    RegistryThroughPasses(s, passes);
    RegistryThroughPass(RunPasses(s, passes), Pass(now, pick, NO_FAULTS));
    hide CleanupPass, RunPasses, DueForDeletion, FitsThroughout;
    assert Gone(CleanupPass(RunPasses(s, passes), now, pick, NO_FAULTS));
  }

  // ---- One cleanup pass ----

  /** What a sweep leaves of a tenant: its rows swept unless the first statement fails, its account closed where
      they leave it lapsed, unless the second does. */
  ghost predicate Swept(s: Slice, t: Slice, now: int, rowsFail: bool, accountFails: bool) {
    && t == Slice(s.id, t.row, if rowsFail then s.subs else SweepSubs(s.subs, now), s.accounts, s.pending, s.registry, s.ledger, s.db)
    && (t.row.Some? <==> s.row.Some?)
    && (s.row.Some? ==>
          t.row.value == s.row.value.(account := if !accountFails && Lapsed(t.subs, s.id) then AccountExpired else s.row.value.account))
  }

  /** What the rest of the pass makes of a swept tenant. */
  function AfterwardsOf(t: Slice, now: int, pick: string, f: PassFaults): Slice {
    if f.record || (RecordDue(t) && Archive(t, TrialExpired, now).None?) then t
    else
      var recorded := if RecordDue(t) then Archive(t, TrialExpired, now).value else t;
      if f.query || recorded.row.None? || recorded.row.value.deletionAt.None? then recorded else Delete(recorded, now, pick, f.delete)
  }

  /** A pass sweeps, records an expired trial's users and deletes what is due; a recording that fails ends it, a
      query that fails skips the deletion. */
  lemma PassOutcome(s: Slice, now: int, pick: string, f: PassFaults)
    ensures exists t :: Swept(s, t, now, f.rows, f.account) && CleanupPass(s, now, pick, f) == AfterwardsOf(t, now, pick, f)
  {
    var t := AfterSweep(s, now, f);
    hide Archive, RecordDue, Delete, Lapsed, SweepSubs;
    assert Swept(s, t, now, f.rows, f.account);
  }

  /** A turn is its pass over the accounts, pending registrations and users it finds; turns follow one another. */
  lemma TurnOutcome(s: Slice, t: Turn)
    ensures TakeTurn(s, t)
            == CleanupPass(Slice(s.id, s.row, s.subs, t.accounts, t.pending, s.registry, s.ledger, t.db), t.pass.now, t.pass.pick, t.pass.faults)
  {
    hide CleanupPass;
  }

  lemma {:induction false} TurnsInTurn(s: Slice, turns: seq<Turn>, t: Turn)
    ensures TakeTurns(s, turns + [t]) == TakeTurn(TakeTurns(s, turns), t)
    decreases turns
  {
    hide TakeTurn;
    if turns == [] {
      assert TakeTurns(TakeTurn(s, t), []) == TakeTurn(s, t);
    } else {
      assert (turns + [t])[1..] == turns[1..] + [t];
      TurnsInTurn(TakeTurn(s, turns[0]), turns[1..], t);
    }
  }

  // ---- The reason ----

  /** A deletion that finds no earlier record takes its reason from the account, the newest subscription row
      and the trial's end. */
  lemma FirstReason(s: Slice, now: int, pick: string, newest: Option<Sub>)
    requires s.row.Some? && (s.row.value.account != Terminated || s.ledger == map[])
    requires newest == Pick(s.subs, Own(s.id))
    ensures var r, row := ReasonFor(s, s.row.value, pick, now), s.row.value;
            && (r == Discontinued <==> newest.Some? && newest.value.status == Cancelled)
            && (r == TrialExpired <==>
                  && row.account != Terminated && (newest.Some? ==> newest.value.ref.None? && newest.value.status != Cancelled)
                  && ((newest.Some? && newest.value.status == Expired) || (row.trialExpires.Some? && row.trialExpires.value <= now)))
            && (r == AccountDeleted || r == Discontinued || r == TrialExpired)
  {
    hide Pick;
  }

  /** A retried deletion keeps the reason an earlier attempt has recorded. */
  lemma RetriedReasonStays(s: Slice, now: int, pick: string, fault: DeleteFault, reason: Reason)
    requires IsTerminated(s) && s.ledger != map[] && AllStatus(s.ledger, reason) && LatestRow(s.ledger, pick)
    ensures AllStatus(Delete(s, now, pick, fault).ledger, reason)
  {
    SameSources(s);
    if Deletable(s, now) {
      MergedKeyed(Sources(s));
      assert ReasonFor(s, s.row.value, pick, now) == reason;
      hide Merged, Fits, Paid, Sources, ReasonFor, Entered, LatestRow;
      ArchivingAgainKeeps(s.ledger, Merged(Sources(s)), reason, now);
    }
  }

  /** The expired-trial ledger is written exactly for tenants whose newest row is an expired trial, with no
      paying row. */
  lemma RecordDueIff(s: Slice)
    requires s.row.Some? && UniqueIds(s.subs)
    ensures RecordDue(s) <==>
              && (forall i :: 0 <= i < |s.subs| && s.subs[i].tenant == s.id ==> s.subs[i].status !in {Active, PastDue})
              && exists i :: 0 <= i < |s.subs| && s.subs[i].tenant == s.id && s.subs[i].status == Expired && s.subs[i].ref.None?
                             && forall j :: 0 <= j < |s.subs| && s.subs[j].tenant == s.id ==> !Newer(s.subs[j], s.subs[i])
  {
    PickIsNewest(s.subs, Own(s.id));
    var newest := Pick(s.subs, Own(s.id));
    hide Pick;
    if newest.Some? {
      var k :| 0 <= k < |s.subs| && s.subs[k] == newest.value;
      assert forall j :: 0 <= j < |s.subs| && s.subs[j].tenant == s.id ==> s.subs[j] in s.subs && !Newer(s.subs[j], s.subs[k]);
      forall i | 0 <= i < |s.subs| && s.subs[i].tenant == s.id && !Newer(newest.value, s.subs[i]) ensures i == k {
        assert s.subs[i] in s.subs && Own(s.id)(s.subs[i]);
        assert !Newer(s.subs[i], newest.value);
      }
    } else {
      forall i | 0 <= i < |s.subs| ensures s.subs[i].tenant != s.id { assert s.subs[i] in s.subs && !Own(s.id)(s.subs[i]); }
    }
  }

  // ---- Whose identity is recorded, and how ----

  /** The places of the four sources in what an archive reads. */
  lemma SourcePlaces(s: Slice)
    ensures var a, b, c, src := |s.accounts|, |s.pending|, |s.registry|, Sources(s);
            && |src| >= a + b + c
            && (forall i :: 0 <= i < a ==> src[i] == Identity(Some(s.accounts[i].userId), s.accounts[i].email, s.accounts[i].email))
            && (forall i :: 0 <= i < b ==> src[a + i] == Identity(None, s.pending[i].name, s.pending[i].email))
            && (forall i :: 0 <= i < c ==> src[a + b + i] == Identity(None, s.registry[i], s.registry[i]))
            && (s.db.Some? && s.db.value.hasUsers ==>
                  && |src| == a + b + c + |s.db.value.users|
                  && forall i :: 0 <= i < |s.db.value.users| ==>
                       src[a + b + c + i] == Identity(Some(s.db.value.users[i].id), s.db.value.users[i].name, s.db.value.users[i].email))
            && (s.db.None? || !s.db.value.hasUsers ==> |src| == a + b + c)
  {}

  function Address(email: string): string { ToLower(Trim(email)) }

  /** Every address of any of the four sources is entered, under the reason given. */
  lemma EveryAddressIsEntered(s: Slice, reason: Reason, now: int, i: int)
    requires 0 <= i < |Sources(s)| && Address(Sources(s)[i].email) != "" && Archive(s, reason, now).Some?
    ensures var l := Archive(s, reason, now).value.ledger;
            Address(Sources(s)[i].email) in l && l[Address(Sources(s)[i].email)].status == reason
  {
    var e := Address(Sources(s)[i].email);
    MergedAddresses(Sources(s), e);
    MergedKeyed(Sources(s));
    assert HasAddress(Sources(s)[i], e);
    hide Merged, Sources, Fits, Entered, Address, HasAddress;
    ArchiveCovers(s.ledger, Merged(Sources(s)), reason, now);
  }

  /** A user of the tenant's own database is entered under his real name, unless a pending registration or an
      earlier user of the same address gives one. */
  lemma LocalNameIsRecorded(s: Slice, reason: Reason, now: int, i: int)
    requires s.db.Some? && s.db.value.hasUsers && 0 <= i < |s.db.value.users|
    requires var u := s.db.value.users[i];
             && Address(u.email) != "" && Trim(u.name) != "" && ToLower(Trim(u.name)) != Address(u.email)
             && (forall j :: 0 <= j < |s.pending| && Address(s.pending[j].email) == Address(u.email) ==>
                   Trim(s.pending[j].name) == "" || ToLower(Trim(s.pending[j].name)) == Address(u.email))
             && (forall j :: 0 <= j < i && Address(s.db.value.users[j].email) == Address(u.email) ==>
                   Trim(s.db.value.users[j].name) == "" || ToLower(Trim(s.db.value.users[j].name)) == Address(u.email))
    requires Archive(s, reason, now).Some?
    ensures var u := s.db.value.users[i];
            var l := Archive(s, reason, now).value.ledger; Address(u.email) in l && l[Address(u.email)].name == Trim(u.name)
  {
    var src, u := Sources(s), s.db.value.users[i];
    SourcePlaces(s);
    var k := |s.accounts| + |s.pending| + |s.registry| + i;
    hide Sources, Trim, ToLower;
    forall j | 0 <= j < k && HasAddress(src[j], Address(u.email)) ensures !RealName(src[j]) {
      var a, b, c := |s.accounts|, |s.pending|, |s.registry|;
      if j < a {
        assert src[j].name == src[j].email;
      } else if j < a + b {
        assert src[j] == src[a + (j - a)];
      } else if j < a + b + c {
        assert src[j] == src[a + b + (j - a - b)];
      } else {
        assert src[j] == src[a + b + c + (j - a - b - c)];
      }
    }
    RealNameIsEntered(s, reason, now, k);
  }

  lemma RealNameIsEntered(s: Slice, reason: Reason, now: int, k: int)
    requires 0 <= k < |Sources(s)| && Address(Sources(s)[k].email) != "" && RealName(Sources(s)[k])
    requires forall j :: 0 <= j < k && HasAddress(Sources(s)[j], Address(Sources(s)[k].email)) ==> !RealName(Sources(s)[j])
    requires Archive(s, reason, now).Some?
    ensures var e, l := Address(Sources(s)[k].email), Archive(s, reason, now).value.ledger; e in l && l[e].name == Trim(Sources(s)[k].name)
  {
    var src, e := Sources(s), Address(Sources(s)[k].email);
    NameIsFirstReal(src, k);
    MergedAddresses(src, e);
    CleanNameIsReal(src[k], e);
    var name := Trim(src[k].name);
    assert name != e by { LowerStays(Trim(src[k].email)); }
    hide Sources, Merged, Fits, Entered, RealName, HasAddress, Trim, ToLower;
    ArchivedRow(s.ledger, Merged(src), reason, now, e);
  }

  /** A pending registration's name is entered before any user's, unless an earlier one of the address has one. */
  lemma PendingNameIsRecorded(s: Slice, reason: Reason, now: int, i: int)
    requires 0 <= i < |s.pending|
    requires var u := s.pending[i];
             && Address(u.email) != "" && Trim(u.name) != "" && ToLower(Trim(u.name)) != Address(u.email)
             && (forall j :: 0 <= j < i && Address(s.pending[j].email) == Address(u.email) ==>
                   Trim(s.pending[j].name) == "" || ToLower(Trim(s.pending[j].name)) == Address(u.email))
    requires Archive(s, reason, now).Some?
    ensures var u := s.pending[i];
            var l := Archive(s, reason, now).value.ledger; Address(u.email) in l && l[Address(u.email)].name == Trim(u.name)
  {
    var src, u, a := Sources(s), s.pending[i], |s.accounts|;
    SourcePlaces(s);
    hide Sources, Trim, ToLower;
    forall j | 0 <= j < a + i && HasAddress(src[j], Address(u.email)) ensures !RealName(src[j]) {
      if j < a { assert src[j].name == src[j].email; } else { assert src[j] == src[a + (j - a)]; }
    }
    RealNameIsEntered(s, reason, now, a + i);
  }

  lemma IdIsEntered(s: Slice, reason: Reason, now: int, k: int)
    requires 0 <= k < |Sources(s)| && Address(Sources(s)[k].email) != "" && Sources(s)[k].id.Some?
    requires forall j :: 0 <= j < k && HasAddress(Sources(s)[j], Address(Sources(s)[k].email)) ==> Sources(s)[j].id.None?
    requires Archive(s, reason, now).Some?
    ensures var e, l := Address(Sources(s)[k].email), Archive(s, reason, now).value.ledger; e in l && l[e].userId == Sources(s)[k].id
  {
    var src, e := Sources(s), Address(Sources(s)[k].email);
    IdIsFirst(src, k);
    MergedAddresses(src, e);
    hide Sources, Merged, Fits, Entered, RealName, HasAddress, Trim, ToLower;
    ArchivedRow(s.ledger, Merged(src), reason, now, e);
  }

  /** The user id is that of the first platform account with the address. */
  lemma AccountIdIsRecorded(s: Slice, reason: Reason, now: int, i: int)
    requires 0 <= i < |s.accounts| && Address(s.accounts[i].email) != "" && Archive(s, reason, now).Some?
    requires forall j :: 0 <= j < i ==> Address(s.accounts[j].email) != Address(s.accounts[i].email)
    ensures var e, l := Address(s.accounts[i].email), Archive(s, reason, now).value.ledger;
            e in l && l[e].userId == Some(s.accounts[i].userId)
  {
    SourcePlaces(s);
    hide Sources, Trim, ToLower;
    IdIsEntered(s, reason, now, i);
  }

  /** ... or, where no account has it, that of the first user of the tenant's own database. */
  lemma LocalIdIsRecorded(s: Slice, reason: Reason, now: int, i: int)
    requires s.db.Some? && s.db.value.hasUsers && 0 <= i < |s.db.value.users|
    requires Address(s.db.value.users[i].email) != "" && Archive(s, reason, now).Some?
    requires forall j :: 0 <= j < |s.accounts| ==> Address(s.accounts[j].email) != Address(s.db.value.users[i].email)
    requires forall j :: 0 <= j < i ==> Address(s.db.value.users[j].email) != Address(s.db.value.users[i].email)
    ensures var e, l := Address(s.db.value.users[i].email), Archive(s, reason, now).value.ledger;
            e in l && l[e].userId == Some(s.db.value.users[i].id)
  {
    var src, u := Sources(s), s.db.value.users[i];
    SourcePlaces(s);
    var a, b, c := |s.accounts|, |s.pending|, |s.registry|;
    hide Sources, Trim, ToLower;
    forall j | 0 <= j < a + b + c + i && HasAddress(src[j], Address(u.email)) ensures src[j].id.None? {
      if j < a {
      } else if j < a + b {
        assert src[j] == src[a + (j - a)];
      } else if j < a + b + c {
        assert src[j] == src[a + b + (j - a - b)];
      }
    }
    IdIsEntered(s, reason, now, a + b + c + i);
  }
}
