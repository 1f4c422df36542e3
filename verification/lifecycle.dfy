/** The end of a tenant: trial expiry, the archive of its users, DROP DATABASE and the removal of its
    control rows. A `Slice` holds everything the two planes store about one tenant. */
module Lifecycle {
  import opened Base
  import opened Subscriptions
  import opened Retirement
  import opened Text

  datatype Provisioning = Pending | InProgress | Ready | Failed

  datatype Tenant = Tenant(account: AccountStatus, provisioning: Provisioning, trialExpires: Option<int>, deletionAt: Option<int>)

  datatype Account = Account(userId: int, email: string)

  /** A pending registration of an address the registry holds for this tenant. */
  datatype Applicant = Applicant(name: string, email: string)

  datatype User = User(id: int, name: string, email: string)

  /** A tenant database; its `users` table exists once the first schema file is applied. */
  datatype Database = Database(hasUsers: bool, users: seq<User>)

  datatype Slice = Slice(
    id: string,
    row: Option<Tenant>,
    subs: seq<Sub>,
    accounts: seq<Account>,
    pending: seq<Applicant>,
    registry: seq<string>,
    ledger: RetiredUsers,
    db: Option<Database>)

  // ---- Single statements and transactions ----

  function Own(tenant: string): Sub -> bool { (s: Sub) => s.tenant == tenant }

  predicate Paid(subs: seq<Sub>, tenant: string) {
    exists i :: 0 <= i < |subs| && subs[i].tenant == tenant && (subs[i].status == Active || subs[i].status == PastDue)
  }

  predicate IsTerminated(s: Slice) { s.row.Some? && s.row.value.account == Terminated }

  function SweepRows(s: Slice, now: int): Slice { s.(subs := SweepSubs(s.subs, now)) }

  function SweepAccount(s: Slice): Slice {
    if s.row.Some? && Lapsed(s.subs, s.id) then s.(row := Some(s.row.value.(account := AccountExpired))) else s
  }

  function FromAccounts(accounts: seq<Account>): seq<Identity> {
    seq(|accounts|, i requires 0 <= i < |accounts| => Identity(Some(accounts[i].userId), accounts[i].email, accounts[i].email))
  }

  function FromPending(pending: seq<Applicant>): seq<Identity> {
    seq(|pending|, i requires 0 <= i < |pending| => Identity(None, pending[i].name, pending[i].email))
  }

  function FromRegistry(registry: seq<string>): seq<Identity> {
    seq(|registry|, i requires 0 <= i < |registry| => Identity(None, registry[i], registry[i]))
  }

  function FromUsers(users: seq<User>): seq<Identity> {
    seq(|users|, i requires 0 <= i < |users| => Identity(Some(users[i].id), users[i].name, users[i].email))
  }

  function ControlSources(s: Slice): seq<Identity> {
    FromAccounts(s.accounts) + FromPending(s.pending) + FromRegistry(s.registry)
  }

  function LocalSources(s: Slice): seq<Identity> {
    if s.db.Some? && s.db.value.hasUsers then FromUsers(s.db.value.users) else []
  }

  /** The rows an archive reads, in the order it reads them. */
  function Sources(s: Slice): seq<Identity> { ControlSources(s) + LocalSources(s) }

  /** The addresses of the tenant's own `users` table. */
  function UserEmails(s: Slice): set<string> { Emails(LocalSources(s)) }

  function Archive(s: Slice, reason: Reason, now: int): Option<Slice> {
    var l := Archived(s.ledger, Merged(Sources(s)), reason, now);
    if l.None? then None else Some(s.(ledger := l.value))
  }

  predicate RecordDue(s: Slice) {
    var latest := Pick(s.subs, Own(s.id));
    s.row.Some? && latest.Some? && latest.value.status == Expired && latest.value.ref.None? && !Paid(s.subs, s.id)
  }

  /** The reason a deletion records. `pick` names the ledger row with the newest `updated_at`, where
      a retry finds one. */
  function ReasonFor(s: Slice, t: Tenant, pick: string, now: int): Reason {
    if t.account == Terminated && pick in s.ledger then s.ledger[pick].status
    else RetirementStatus(t.account, Pick(s.subs, Own(s.id)), t.trialExpires, now)
  }

  ghost predicate LatestRow(ledger: RetiredUsers, pick: string) {
    if pick in ledger then forall e :: e in ledger ==> ledger[e].updatedAt <= ledger[pick].updatedAt else ledger == map[]
  }

  predicate Deletable(s: Slice, now: int) {
    s.row.Some? && !Paid(s.subs, s.id) && (s.row.value.deletionAt.Some? ==> s.row.value.deletionAt.value <= now)
  }

  /** Phase 1: the eligibility check and the shutdown of access, in one transaction. */
  function CloseAccess(s: Slice): Slice {
    if s.row.None? then s else s.(row := Some(s.row.value.(account := Terminated)))
  }

  /** Phase 4: operational rows go; the registry and the ledger stay. */
  function Remove(s: Slice): Slice {
    s.(row := None, subs := [], accounts := [], pending := [])
  }

  function MarkFailed(s: Slice): Slice {
    if s.row.None? then s else s.(row := Some(s.row.value.(provisioning := Failed)))
  }

  // ---- One deletion from start to end ----

  datatype DeleteFault = Unfaulted | CloseFails | ReadFails | RecordFails | DropFails(marked: bool) | RemoveFails

  /** Phases 3 and 4: DROP DATABASE, then the control rows. */
  function DropAndRemove(s: Slice, fault: DeleteFault): Slice {
    if fault.DropFails? then (if fault.marked then MarkFailed(s) else s)
    else if fault == RemoveFails then s.(db := None)
    else Remove(s.(db := None))
  }

  /** What follows the shutdown of access. */
  function Retire(s: Slice, reason: Reason, now: int, fault: DeleteFault): Slice {
    if fault == ReadFails || fault == RecordFails || Archive(s, reason, now).None? then s
    else DropAndRemove(Archive(s, reason, now).value, fault)
  }

  function Delete(s: Slice, now: int, pick: string, fault: DeleteFault): Slice {
    if !Deletable(s, now) || fault == CloseFails then s
    else Retire(CloseAccess(s), ReasonFor(s, s.row.value, pick, now), now, fault)
  }

  /** What can fail in one cleanup pass. `record` also covers a failure on another tenant's behalf,
      which ends the pass for every tenant. */
  datatype PassFaults = PassFaults(rows: bool, account: bool, record: bool, query: bool, delete: DeleteFault)

  const NO_FAULTS := PassFaults(false, false, false, false, Unfaulted)

  function AfterSweep(s: Slice, now: int, f: PassFaults): Slice {
    var rows := if f.rows then s else SweepRows(s, now);
    if f.account then rows else SweepAccount(rows)
  }

  /** One tenant's part of `RecordExpiredTrialUsers`. */
  function RecordedTrial(s: Slice, now: int): Option<Slice> {
    if RecordDue(s) then Archive(s, TrialExpired, now) else Some(s)
  }

  /** None when recording the expired trials fails, which ends the pass. */
  function Recorded(s: Slice, now: int, f: PassFaults): Option<Slice> {
    if f.record then None else RecordedTrial(s, now)
  }

  function DeletedIfDue(s: Slice, now: int, pick: string, fault: DeleteFault): Slice {
    if s.row.None? || s.row.value.deletionAt.None? then s else Delete(s, now, pick, fault)
  }

  /** `CleanupExpiredTrials`, as far as one tenant sees it. */
  function CleanupPass(s: Slice, now: int, pick: string, f: PassFaults): Slice {
    var swept := AfterSweep(s, now, f);
    var recorded := Recorded(swept, now, f);
    if recorded.None? then swept else if f.query then recorded.value else DeletedIfDue(recorded.value, now, pick, f.delete)
  }

  datatype Pass = Pass(now: int, pick: string, faults: PassFaults)

  function RunPasses(s: Slice, passes: seq<Pass>): Slice
    decreases passes
  {
    if passes == [] then s else RunPasses(CleanupPass(s, passes[0].now, passes[0].pick, passes[0].faults), passes[1..])
  }

  // ---- Progress: when retrying a deletion ends it ----

  lemma SweepsKeepUnpaid(s: Slice, now: int, f: PassFaults)
    requires !Paid(s.subs, s.id)
    ensures !Paid(AfterSweep(s, now, f).subs, s.id)
  {}

  /** Every name the control plane knows, with and without the tenant's own users, fits its column. */
  ghost predicate FitsThroughout(s: Slice) {
    Fits(Merged(ControlSources(s))) && Fits(Merged(Sources(s)))
  }

  /** Database, tenant row and every operational row are gone. */
  ghost predicate Gone(s: Slice) { s.row.None? && s.db.None? && s.subs == [] && s.accounts == [] && s.pending == [] }

  ghost predicate Retriable(s: Slice, now: int) {
    && (s.row.None? ==> Gone(s))
    && (s.row.Some? ==> s.row.value.deletionAt.Some? && s.row.value.deletionAt.value <= now && !Paid(s.subs, s.id) && FitsThroughout(s))
  }

  lemma DroppedSources(s: Slice)
    ensures Sources(s.(db := None)) == ControlSources(s)
  {}

  lemma SweptKeepsRetriable(s: Slice, now: int, f: PassFaults, at: int)
    requires Retriable(s, at)
    ensures Retriable(AfterSweep(s, now, f), at)
    ensures AfterSweep(s, now, f).row.Some? <==> s.row.Some?
  {
    hide SweepSubs, Lapsed, Paid, Fits, Merged;
    if s.row.Some? { SweepsKeepUnpaid(s, now, f); }
  }

  lemma DeleteKeepsRetriable(s: Slice, now: int, pick: string, fault: DeleteFault, at: int)
    requires Retriable(s, at)
    ensures Retriable(Delete(s, now, pick, fault), at)
  {
    hide Fits, Merged, Entered, ReasonFor, Emails;
    DroppedSources(s);
  }

  lemma PassKeepsRetriable(s: Slice, p: Pass, at: int)
    requires Retriable(s, at)
    ensures Retriable(CleanupPass(s, p.now, p.pick, p.faults), at)
  {
    SweptKeepsRetriable(s, p.now, p.faults, at);
    var swept := AfterSweep(s, p.now, p.faults);
    var recorded := Recorded(swept, p.now, p.faults);
    if recorded.Some? {
      ArchiveKeepsRetriable(swept, p.now, p.faults, at);
      DeleteKeepsRetriable(recorded.value, p.now, p.pick, p.faults.delete, at);
    }
    hide Retriable, Delete, Recorded, AfterSweep;
  }

  lemma ArchiveKeepsRetriable(s: Slice, now: int, f: PassFaults, at: int)
    requires Retriable(s, at) && Recorded(s, now, f).Some?
    ensures Retriable(Recorded(s, now, f).value, at)
    ensures Recorded(s, now, f).value == s.(ledger := Recorded(s, now, f).value.ledger)
  {}

  lemma UnfaultedDeleteFinishes(s: Slice, now: int, pick: string)
    requires Retriable(s, now)
    ensures Gone(Delete(s, now, pick, Unfaulted))
  {}

  lemma UnfaultedPassFinishes(s: Slice, now: int, pick: string)
    requires Retriable(s, now)
    ensures Gone(CleanupPass(s, now, pick, NO_FAULTS))
  {
    SweptKeepsRetriable(s, now, NO_FAULTS, now);
    var swept := AfterSweep(s, now, NO_FAULTS);
    if RecordDue(swept) { RecordDueHasRow(swept); }
    RetriableRecords(swept, now);
    ArchiveKeepsRetriable(swept, now, NO_FAULTS, now);
    UnfaultedDeleteFinishes(Recorded(swept, now, NO_FAULTS).value, now, pick);
    RetriableMeansDue(Recorded(swept, now, NO_FAULTS).value, now);
    hide AfterSweep, Recorded, Delete, Retriable;
  }

  lemma RetriableMeansDue(s: Slice, now: int)
    requires Retriable(s, now)
    ensures s.row.None? ==> Gone(s)
    ensures s.row.Some? ==> s.row.value.deletionAt.Some?
  {}

  lemma RetriableRecords(s: Slice, now: int)
    requires Retriable(s, now)
    ensures Recorded(s, now, NO_FAULTS).Some?
  {}

  lemma RecordDueHasRow(s: Slice)
    requires RecordDue(s)
    ensures s.row.Some?
  {}

  /** Whatever failed before, in any number of passes, an unfaulted pass ends the deletion. */
  lemma {:induction false} PassesKeepRetriable(s: Slice, passes: seq<Pass>, at: int)
    requires Retriable(s, at)
    ensures Retriable(RunPasses(s, passes), at)
    decreases passes
  {
    hide Retriable, CleanupPass;
    if passes != [] {
      PassKeepsRetriable(s, passes[0], at);
      PassesKeepRetriable(CleanupPass(s, passes[0].now, passes[0].pick, passes[0].faults), passes[1..], at);
    }
  }

  ghost predicate DueForDeletion(s: Slice, now: int) {
    s.row.Some? && s.row.value.deletionAt.Some? && s.row.value.deletionAt.value <= now && !Paid(s.subs, s.id)
  }

  lemma TooWideIsStuck(s: Slice, now: int, pick: string)
    requires s.row.Some? && !Fits(Merged(Sources(s)))
    ensures CleanupPass(s, now, pick, NO_FAULTS).row.Some?
  {}

  /** Phase 4 alone fails: the database is gone and the control rows are not. */
  const REMOVAL_FAULT := PassFaults(false, false, false, false, RemoveFails)

  lemma DeleteDropsOnly(s: Slice, now: int, pick: string)
    requires DueForDeletion(s, now) && Fits(Merged(Sources(s)))
    ensures var t := Delete(s, now, pick, RemoveFails); t.row.Some? && Sources(t) == ControlSources(s)
  {}

  lemma RecordingKeepsDue(s: Slice, now: int, f: PassFaults)
    requires DueForDeletion(s, now) && Fits(Merged(Sources(s))) && !f.record
    ensures Recorded(s, now, f).Some?
    ensures var t := Recorded(s, now, f).value; DueForDeletion(t, now) && Sources(t) == Sources(s) && ControlSources(t) == ControlSources(s)
  {}

  lemma SweepKeepsDue(s: Slice, now: int, f: PassFaults)
    requires DueForDeletion(s, now)
    ensures var t := AfterSweep(s, now, f); DueForDeletion(t, now) && Sources(t) == Sources(s) && ControlSources(t) == ControlSources(s)
  {}

  lemma RemovalFaultDropsOnly(s: Slice, now: int, pick: string)
    requires DueForDeletion(s, now) && Fits(Merged(Sources(s)))
    ensures var t := CleanupPass(s, now, pick, REMOVAL_FAULT); t.row.Some? && Sources(t) == ControlSources(s)
  {
    SweepKeepsDue(s, now, REMOVAL_FAULT);
    RecordingKeepsDue(AfterSweep(s, now, REMOVAL_FAULT), now, REMOVAL_FAULT);
    DeleteDropsOnly(Recorded(AfterSweep(s, now, REMOVAL_FAULT), now, REMOVAL_FAULT).value, now, pick);
    hide Fits, AfterSweep, Recorded, Delete, Sources, ControlSources, Paid;
  }

  /** Once retention is over, retrying always ends the deletion, whatever failed before and however
      often, exactly when every address without a known user name is short enough to stand in for
      one, both while the tenant's own users are readable and after they are gone. */
  lemma RetryingFinishesIff(s: Slice, now: int)
    requires DueForDeletion(s, now)
    ensures (forall passes, pick :: Gone(CleanupPass(RunPasses(s, passes), now, pick, NO_FAULTS))) <==> FitsThroughout(s)
  {
    if FitsThroughout(s) {
      forall passes, pick ensures Gone(CleanupPass(RunPasses(s, passes), now, pick, NO_FAULTS)) {
        PassesKeepRetriable(s, passes, now);
        UnfaultedPassFinishes(RunPasses(s, passes), now, pick);
      }
    } else if !Fits(Merged(Sources(s))) {
      TooWideIsStuck(s, now, s.id);
      assert RunPasses(s, []) == s;
    } else {
      RemovalFaultDropsOnly(s, now, s.id);
      var t := CleanupPass(s, now, s.id, REMOVAL_FAULT);
      TooWideIsStuck(t, now, s.id);
      RunOnePass(s, Pass(now, s.id, REMOVAL_FAULT));
      assert !Gone(CleanupPass(RunPasses(s, [Pass(now, s.id, REMOVAL_FAULT)]), now, s.id, NO_FAULTS));
    }
  }

  lemma RunOnePass(s: Slice, p: Pass)
    ensures RunPasses(s, [p]) == CleanupPass(s, p.now, p.pick, p.faults)
  {}

  lemma TooWideKeepsRow(s: Slice, p: Pass)
    requires s.row.Some? && !Fits(Merged(Sources(s)))
    ensures var t := CleanupPass(s, p.now, p.pick, p.faults); t.row.Some? && Sources(t) == Sources(s)
  {
    var swept := AfterSweep(s, p.now, p.faults);
    assert swept == s.(row := swept.row, subs := swept.subs) && swept.row.Some?;
    assert Sources(swept) == Sources(s);
    hide AfterSweep, ReasonFor, RecordDue, Fits, Merged;
  }

  lemma {:induction false} TooWideNeverGoes(s: Slice, passes: seq<Pass>)
    requires s.row.Some? && !Fits(Merged(Sources(s)))
    ensures RunPasses(s, passes).row.Some?
    decreases passes
  {
    if passes != [] {
      TooWideKeepsRow(s, passes[0]);
      hide CleanupPass, Fits, Merged, Sources;
      TooWideNeverGoes(CleanupPass(s, passes[0].now, passes[0].pick, passes[0].faults), passes[1..]);
    }
  }

  /** A terminated tenant of which only its registered address is left. */
  function OnlyRegistered(id: string, email: string, due: int): Slice {
    Slice(id, Some(Tenant(Terminated, Ready, Some(due), Some(due))), [], [], [], [email], map[], None)
  }

  /** An address of more than 100 characters that no source gives a name for: no pass ever removes the tenant. */
  lemma LongAddressIsStuck(id: string, email: string, due: int, passes: seq<Pass>)
    requires CleanEmail(email) == email && |email| > MAX_NAME
    ensures var s := OnlyRegistered(id, email, due); DueForDeletion(s, due) && !FitsThroughout(s) && !Gone(RunPasses(s, passes))
  {
    var s := OnlyRegistered(id, email, due);
    RegistryAlone(s, email);
    hide CleanEmail, CleanName, Merged, Sources;
    TooWideNeverGoes(s, passes);
  }

  lemma RegistryAlone(s: Slice, email: string)
    requires s.registry == [email] && s.accounts == [] && s.pending == [] && s.db.None?
    requires CleanEmail(email) == email && |email| > MAX_NAME
    ensures !Fits(Merged(Sources(s)))
  {
    var u := Identity(None, email, email);
    assert Sources(s) == [u];
    assert CleanName(email, email) == email;
    OnlyIdentity(u);
  }

  lemma OnlyIdentity(u: Identity)
    requires CleanEmail(u.email) == u.email && CleanName(u.name, u.email) == u.email && |u.email| > MAX_NAME
    ensures !Fits(Merged([u]))
  {
    hide CleanEmail, CleanName;
    assert FirstName([u], u.email) == u.email by { assert [u][1..] == []; }
    assert [u][0] == u;
    assert u.email in Emails([u]);
    assert Merged([u])[u.email].name == u.email;
  }

  /** Such addresses exist: lower-case letters are an address as it stands. */
  lemma LongAddress() returns (email: string)
    ensures CleanEmail(email) == email && |email| == MAX_NAME + 1
  {
    email := seq(MAX_NAME + 1, _ => 'a');
    TrimIsStable(email);
    assert ToLower(email) == email;
  }

  lemma SomeDeletionsNeverEnd()
    ensures exists s, due :: DueForDeletion(s, due) && !FitsThroughout(s) && forall passes :: !Gone(RunPasses(s, passes))
  {
    var email := LongAddress();
    var s := OnlyRegistered("t", email, 0);
    hide CleanEmail, RunPasses, FitsThroughout;
    LongAddressIsStuck("t", email, 0, []);
    forall passes ensures !Gone(RunPasses(s, passes)) { LongAddressIsStuck("t", email, 0, passes); }
    assert DueForDeletion(s, 0);
  }

  // ---- Ledger stability for tenants that never subscribed ----

  predicate Lasted(subs: seq<Sub>, tenant: string, limit: int) {
    forall i :: 0 <= i < |subs| && subs[i].tenant == tenant ==>
      subs[i].ref.None? && (subs[i].status == Trial || subs[i].status == Expired) && subs[i].endsAt.Some? && subs[i].endsAt.value < limit
  }

  /** A tenant that never subscribed: only trials, ending before the retention window does, and an
      address in the registry. What its ledger holds so far tells of an expired trial. */
  ghost predicate TrialTenant(s: Slice) {
    && (exists i :: 0 <= i < |s.registry| && CleanEmail(s.registry[i]) != "")
    && AllStatus(s.ledger, TrialExpired)
    && (s.row.Some? ==>
          && s.row.value.deletionAt.Some?
          && Lasted(s.subs, s.id, s.row.value.deletionAt.value)
          && (exists i :: 0 <= i < |s.subs| && s.subs[i].tenant == s.id))
  }

  /** The tenant row itself says that the trial is over once the retention window is. */
  predicate EndsInTime(t: Tenant) {
    t.trialExpires.Some? && t.deletionAt.Some? && t.trialExpires.value <= t.deletionAt.value
  }

  /** What lets a deletion find the reason without a sweep: the latest row is marked expired, or the
      ledger has been written and either the row is closed already or its own expiry date will do. */
  predicate Anchored(s: Slice) {
    RecordDue(s) || (s.ledger != map[] && s.row.Some? && (IsTerminated(s) || EndsInTime(s.row.value)))
  }

  lemma MergedKeyed(src: seq<Identity>)
    ensures KeyedByEmail(Merged(src))
  {}

  /** The registry's address is always among what an archive reads. */
  lemma RegistryIsRead(s: Slice, i: int)
    requires 0 <= i < |s.registry| && CleanEmail(s.registry[i]) != ""
    ensures CleanEmail(s.registry[i]) in Merged(Sources(s))
  {
    hide CleanEmail, FirstId, FirstName;
    var src := Sources(s);
    var k := |s.accounts| + |s.pending| + i;
    assert src[k].email == s.registry[i];
  }

  lemma SweptKeepsTrial(s: Slice, now: int, f: PassFaults)
    requires TrialTenant(s)
    ensures var t := AfterSweep(s, now, f); TrialTenant(t) && t.ledger == s.ledger && t.row == s.row && t.id == s.id
  {
    hide CleanEmail, AllStatus;
    var t := AfterSweep(s, now, f);
    assert t.row == s.row && t.subs == if f.rows then s.subs else SweepSubs(s.subs, now);
    if s.row.Some? {
      var i :| 0 <= i < |s.subs| && s.subs[i].tenant == s.id;
      assert t.subs[i].tenant == t.id;
    }
  }

  lemma SweptIsRecordDue(s: Slice, now: int, f: PassFaults)
    requires TrialTenant(s) && !f.rows && s.row.Some? && s.row.value.deletionAt.value <= now
    ensures RecordDue(AfterSweep(s, now, f))
  {
    SweptKeepsTrial(s, now, f);
    var t := AfterSweep(s, now, f);
    assert t.subs == SweepSubs(s.subs, now);
    var i :| 0 <= i < |s.subs| && s.subs[i].tenant == s.id;
    assert t.subs[i].tenant == t.id;
    AllSwept(s.subs, s.id, now, s.row.value.deletionAt.value);
    AllLapsed(t.subs, t.id, i);
  }

  lemma {:induction false} OwnAfterSweep(subs: seq<Sub>, tenant: string, at: int)
    ensures var before, after := Pick(subs, Own(tenant)), Pick(SweepSubs(subs, at), Own(tenant));
            after == if before.None? then None else Some(SweepSub(before.value, at))
  {
    if subs != [] {
      OwnAfterSweep(subs[1..], tenant, at);
      assert SweepSubs(subs, at)[1..] == SweepSubs(subs[1..], at);
    }
  }

  lemma SweptKeepsAnchored(s: Slice, now: int, f: PassFaults)
    requires TrialTenant(s) && Anchored(s)
    ensures Anchored(AfterSweep(s, now, f))
  {
    SweptKeepsTrial(s, now, f);
    var t := AfterSweep(s, now, f);
    hide TrialTenant;
    assert t.subs == if f.rows then s.subs else SweepSubs(s.subs, now);
    OwnAfterSweep(s.subs, s.id, now);
    if RecordDue(s) { SweepsKeepUnpaid(s, now, f); }
    hide Pick, Paid;
  }

  lemma AllSwept(subs: seq<Sub>, tenant: string, now: int, limit: int)
    requires Lasted(subs, tenant, limit) && limit <= now
    ensures forall i :: 0 <= i < |subs| && subs[i].tenant == tenant ==> SweepSubs(subs, now)[i].status == Expired
  {}

  lemma AllLapsed(subs: seq<Sub>, tenant: string, i: int)
    requires 0 <= i < |subs| && subs[i].tenant == tenant
    requires forall i :: 0 <= i < |subs| && subs[i].tenant == tenant ==> subs[i].status == Expired && subs[i].ref.None?
    ensures !Paid(subs, tenant)
    ensures var latest := Pick(subs, Own(tenant)); latest.Some? && latest.value.status == Expired && latest.value.ref.None?
  {
    PickIsNewest(subs, Own(tenant));
    assert Own(tenant)(subs[i]);
    hide Pick;
  }

  lemma ArchiveKeepsTrial(s: Slice, now: int, t: Slice)
    requires TrialTenant(s) && Archive(s, TrialExpired, now) == Some(t)
    ensures TrialTenant(t) && AllKept(s.ledger, t.ledger) && t.ledger != map[]
    ensures t == s.(ledger := t.ledger)
  {
    MergedKeyed(Sources(s));
    var users := Merged(Sources(s));
    hide Sources, Merged, Fits, Lasted;
    ArchivingAgainKeeps(s.ledger, users, TrialExpired, now);
    ArchiveCovers(s.ledger, users, TrialExpired, now);
    var i :| 0 <= i < |s.registry| && CleanEmail(s.registry[i]) != "";
    RegistryIsRead(s, i);
    assert CleanEmail(s.registry[i]) in t.ledger;
  }

  lemma LatestIsTrial(s: Slice)
    requires TrialTenant(s) && s.row.Some?
    ensures var latest := Pick(s.subs, Own(s.id));
            latest.Some? && latest.value.ref.None? && (latest.value.status == Trial || latest.value.status == Expired)
    ensures !Paid(s.subs, s.id) && !Lapsed(s.subs, s.id)
  {
    var i :| 0 <= i < |s.subs| && s.subs[i].tenant == s.id;
    PickIsNewest(s.subs, Own(s.id));
    assert Own(s.id)(s.subs[i]);
    hide Pick;
  }

  /** The reason a deletion finds for such a tenant once the ledger is written. */
  lemma TrialReason(s: Slice, now: int, pick: string)
    requires TrialTenant(s) && s.ledger != map[] && LatestRow(s.ledger, pick) && Anchored(s)
    requires s.row.value.deletionAt.value <= now
    ensures ReasonFor(s, s.row.value, pick, now) == TrialExpired
  {
    LatestIsTrial(s);
    hide Pick, Paid, Lapsed, Lasted;
  }

  lemma CloseKeepsTrial(s: Slice)
    requires TrialTenant(s)
    ensures TrialTenant(CloseAccess(s)) && CloseAccess(s).ledger == s.ledger
  {}

  lemma DropKeepsTrial(s: Slice, fault: DeleteFault)
    requires TrialTenant(s)
    ensures TrialTenant(DropAndRemove(s, fault)) && DropAndRemove(s, fault).ledger == s.ledger
  {}

  lemma RetireKeepsTrial(s: Slice, now: int, fault: DeleteFault)
    requires TrialTenant(s)
    ensures var t := Retire(s, TrialExpired, now, fault); TrialTenant(t) && AllKept(s.ledger, t.ledger)
  {
    AllKeptItself(s.ledger);
    hide TrialTenant, AllKept, Archive, DropAndRemove;
    if Archive(s, TrialExpired, now).Some? {
      var archived := Archive(s, TrialExpired, now).value;
      ArchiveKeepsTrial(s, now, archived);
      DropKeepsTrial(archived, fault);
    }
  }

  lemma DeleteKeepsTrial(s: Slice, now: int, pick: string, fault: DeleteFault)
    requires TrialTenant(s) && LatestRow(s.ledger, pick)
    requires Deletable(s, now) ==> s.row.value.deletionAt.Some? && Anchored(s) && s.ledger != map[]
    ensures var t := Delete(s, now, pick, fault); TrialTenant(t) && AllKept(s.ledger, t.ledger)
  {
    AllKeptItself(s.ledger);
    if Deletable(s, now) {
      TrialReason(s, now, pick);
      CloseKeepsTrial(s);
      RetireKeepsTrial(CloseAccess(s), now, fault);
      hide TrialTenant, AllKept, ReasonFor, LatestRow, RecordDue, Retire;
    }
  }

  lemma AllKeptItself(ledger: RetiredUsers)
    ensures AllKept(ledger, ledger)
  {}

  lemma AllKeptThrough(a: RetiredUsers, b: RetiredUsers, c: RetiredUsers)
    requires AllKept(a, b) && AllKept(b, c)
    ensures AllKept(a, c)
  {}

  /** The pass's `pick` is a newest row of the ledger its deletion reads. */
  ghost predicate PicksNewest(s: Slice, p: Pass) {
    var recorded := Recorded(AfterSweep(s, p.now, p.faults), p.now, p.faults);
    recorded.Some? ==> LatestRow(recorded.value.ledger, p.pick)
  }

  lemma RecordKeepsTrial(s: Slice, now: int, f: PassFaults)
    requires TrialTenant(s) && Recorded(s, now, f).Some?
    ensures var t := Recorded(s, now, f).value;
            && TrialTenant(t) && AllKept(s.ledger, t.ledger) && t == s.(ledger := t.ledger)
            && (RecordDue(s) || s.ledger != map[] ==> t.ledger != map[])
  {
    AllKeptItself(s.ledger);
    hide TrialTenant, AllKept, Archive;
    if RecordDue(s) {
      ArchiveKeepsTrial(s, now, Recorded(s, now, f).value);
    }
  }

  /** The retention window is over at this time. */
  predicate WindowOver(s: Slice, now: int) {
    s.row.Some? && s.row.value.deletionAt.Some? && s.row.value.deletionAt.value <= now
  }

  lemma DueKeepsTrial(s: Slice, now: int, pick: string, fault: DeleteFault)
    requires TrialTenant(s) && LatestRow(s.ledger, pick)
    requires WindowOver(s, now) ==> Anchored(s) && s.ledger != map[]
    ensures var t := DeletedIfDue(s, now, pick, fault); TrialTenant(t) && AllKept(s.ledger, t.ledger)
  {
    AllKeptItself(s.ledger);
    hide TrialTenant, AllKept, LatestRow, RecordDue, Delete;
    if s.row.Some? && s.row.value.deletionAt.Some? { DeleteKeepsTrial(s, now, pick, fault); }
  }

  /** The pass reads a newest ledger row, and if it misses its sweep of the subscription rows it comes
      too early to delete the tenant, or finds it anchored. */
  ghost predicate Steady(s: Slice, p: Pass) {
    PicksNewest(s, p) && (p.faults.rows && WindowOver(s, p.now) ==> Anchored(s))
  }

  lemma SweptIsAnchored(s: Slice, p: Pass)
    requires TrialTenant(s) && Steady(s, p) && WindowOver(s, p.now)
    ensures Anchored(AfterSweep(s, p.now, p.faults))
  {
    if p.faults.rows {
      SweptKeepsAnchored(s, p.now, p.faults);
    } else {
      SweptIsRecordDue(s, p.now, p.faults);
    }
  }

  /** Recording an expired trial anchors it in the ledger. */
  lemma RecordedIsAnchored(s: Slice, now: int, f: PassFaults)
    requires TrialTenant(s) && Recorded(s, now, f).Some? && Anchored(s)
    ensures Anchored(Recorded(s, now, f).value) && Recorded(s, now, f).value.ledger != map[]
  {
    RecordKeepsTrial(s, now, f);
    hide TrialTenant, Recorded, AllKept, Pick, Paid;
  }

  lemma PassKeepsTrial(s: Slice, p: Pass)
    requires TrialTenant(s) && Steady(s, p)
    ensures var t := CleanupPass(s, p.now, p.pick, p.faults); TrialTenant(t) && AllKept(s.ledger, t.ledger)
  {
    SweptKeepsTrial(s, p.now, p.faults);
    var swept := AfterSweep(s, p.now, p.faults);
    if WindowOver(s, p.now) { SweptIsAnchored(s, p); }
    hide TrialTenant, AfterSweep, AllKept, RecordedTrial, LatestRow, DeletedIfDue, Anchored;
    AllKeptItself(s.ledger);
    var recorded := Recorded(swept, p.now, p.faults);
    if recorded.Some? {
      RecordKeepsTrial(swept, p.now, p.faults);
      if WindowOver(s, p.now) { RecordedIsAnchored(swept, p.now, p.faults); }
      DueKeepsTrial(recorded.value, p.now, p.pick, p.faults.delete);
      hide Recorded;
      AllKeptThrough(s.ledger, recorded.value.ledger, DeletedIfDue(recorded.value, p.now, p.pick, p.faults.delete).ledger);
    }
  }

  lemma DeleteKeepsAnchored(s: Slice, now: int, pick: string, fault: DeleteFault)
    requires TrialTenant(s) && LatestRow(s.ledger, pick) && Anchored(s) && s.ledger != map[]
    ensures var t := DeletedIfDue(s, now, pick, fault); t.row.None? || Anchored(t)
  {
    DeleteKeepsTrial(s, now, pick, fault);
    var t := DeletedIfDue(s, now, pick, fault);
    assert t.row.Some? ==> t == s || IsTerminated(t) by {
      hide TrialTenant, LatestRow, Anchored, ReasonFor, Archived, Sources, Merged, Deletable, AllKept;
    }
    assert t.ledger != map[] by {
      hide TrialTenant, Delete, Anchored, LatestRow;
      assert (forall e :: e !in s.ledger) ==> s.ledger == map[];
      var e :| e in s.ledger;
      assert e in t.ledger;
    }
  }

  /** Once anchored, a tenant stays so for as long as its row exists. */
  lemma PassKeepsAnchored(s: Slice, p: Pass)
    requires TrialTenant(s) && Anchored(s) && PicksNewest(s, p)
    ensures var t := CleanupPass(s, p.now, p.pick, p.faults); t.row.None? || Anchored(t)
  {
    SweptKeepsTrial(s, p.now, p.faults);
    SweptKeepsAnchored(s, p.now, p.faults);
    var swept := AfterSweep(s, p.now, p.faults);
    hide TrialTenant, AfterSweep, RecordedTrial, LatestRow, DeletedIfDue, Anchored;
    var recorded := Recorded(swept, p.now, p.faults);
    if recorded.Some? {
      RecordKeepsTrial(swept, p.now, p.faults);
      RecordedIsAnchored(swept, p.now, p.faults);
      DeleteKeepsAnchored(recorded.value, p.now, p.pick, p.faults.delete);
    }
  }

  /** A cleanup pass, and what the tenant's users did before it. */
  datatype Turn = Turn(accounts: seq<Account>, pending: seq<Applicant>, db: Option<Database>, pass: Pass)

  function TakeTurn(s: Slice, t: Turn): Slice {
    CleanupPass(s.(accounts := t.accounts, pending := t.pending, db := t.db), t.pass.now, t.pass.pick, t.pass.faults)
  }

  function TakeTurns(s: Slice, turns: seq<Turn>): Slice
    decreases turns
  {
    if turns == [] then s else TakeTurns(TakeTurn(s, turns[0]), turns[1..])
  }

  /** The tenant as a turn's pass finds it. */
  function Before(s: Slice, t: Turn): Slice { s.(accounts := t.accounts, pending := t.pending, db := t.db) }

  ghost predicate SteadyTurns(s: Slice, turns: seq<Turn>)
    decreases turns
  {
    turns != [] ==> Steady(Before(s, turns[0]), turns[0].pass) && SteadyTurns(TakeTurn(s, turns[0]), turns[1..])
  }

  /** Whichever archives, drops and removals fail in whichever passes, and whatever the tenant's users
      do in between, every ledger row of a tenant that never subscribed keeps TRIAL_EXPIRED, its first
      retirement date, and a user id and real name once learnt, even after the database is gone. */
  lemma {:induction false} TrialLedgerIsStable(s: Slice, turns: seq<Turn>)
    requires TrialTenant(s) && SteadyTurns(s, turns)
    ensures TrialTenant(TakeTurns(s, turns))
    ensures AllKept(s.ledger, TakeTurns(s, turns).ledger) && AllStatus(TakeTurns(s, turns).ledger, TrialExpired)
    decreases turns
  {
    AllKeptItself(s.ledger);
    if turns != [] {
      hide CleanupPass, AllKept, Steady;
      assert TrialTenant(Before(s, turns[0]));
      hide TrialTenant;
      PassKeepsTrial(Before(s, turns[0]), turns[0].pass);
      TrialLedgerIsStable(TakeTurn(s, turns[0]), turns[1..]);
      AllKeptThrough(s.ledger, TakeTurn(s, turns[0]).ledger, TakeTurns(s, turns).ledger);
    }
  }

  ghost predicate NewestTurns(s: Slice, turns: seq<Turn>)
    decreases turns
  {
    turns != [] ==> PicksNewest(Before(s, turns[0]), turns[0].pass) && NewestTurns(TakeTurn(s, turns[0]), turns[1..])
  }

  /** Once a tenant is anchored or its row is gone, every turn is steady, whatever sweeps fail. */
  lemma {:induction false} AnchoredIsSteady(s: Slice, turns: seq<Turn>)
    requires TrialTenant(s) && (s.row.None? || Anchored(s)) && NewestTurns(s, turns)
    ensures SteadyTurns(s, turns)
    decreases turns
  {
    if turns != [] {
      var at := Before(s, turns[0]);
      assert TrialTenant(at) && (at.row.None? || Anchored(at)) && Steady(at, turns[0].pass);
      hide TrialTenant, Anchored, PicksNewest, Steady, CleanupPass;
      PassKeepsTrial(at, turns[0].pass);
      if at.row.Some? { PassKeepsAnchored(at, turns[0].pass); } else { NoRowStays(at, turns[0].pass); }
      AnchoredIsSteady(TakeTurn(s, turns[0]), turns[1..]);
    }
  }

  lemma NoRowStays(s: Slice, p: Pass)
    requires s.row.None?
    ensures CleanupPass(s, p.now, p.pick, p.faults).row.None?
  {}

  /** Both passes miss their sweep; the first also fails to archive. */
  const MISSED_SWEEP := PassFaults(true, false, false, false, RecordFails)
  const MISSED_SWEEP_AGAIN := PassFaults(true, false, false, false, DropFails(true))

  /** A pass without its sweep goes straight to the deletion of a tenant whose trial row is not yet
      marked expired. */
  lemma MissedSweepPass(s: Slice, now: int, pick: string, f: PassFaults)
    requires f in {MISSED_SWEEP, MISSED_SWEEP_AGAIN} && DueForDeletion(s, now) && !Lapsed(s.subs, s.id)
    requires Pick(s.subs, Own(s.id)).Some? && Pick(s.subs, Own(s.id)).value.status == Trial
    ensures CleanupPass(s, now, pick, f) == Delete(s, now, pick, f.delete)
  {}

  lemma DeletionMislabels(s: Slice, now: int, pick: string)
    requires DueForDeletion(s, now) && IsTerminated(s) && s.ledger == map[]
    requires Pick(s.subs, Own(s.id)).Some? && Pick(s.subs, Own(s.id)).value.status == Trial && Fits(Merged(Sources(s)))
    ensures Delete(s, now, pick, DropFails(true)).ledger == Entered(map[], Merged(Sources(s)), AccountDeleted, now)
  {}

  lemma FirstArchiveRecords(s: Slice, reason: Reason, now: int)
    requires exists i :: 0 <= i < |s.registry| && CleanEmail(s.registry[i]) != ""
    ensures var l := Entered(map[], Merged(Sources(s)), reason, now); l != map[] && AllStatus(l, reason)
  {
    var i :| 0 <= i < |s.registry| && CleanEmail(s.registry[i]) != "";
    RegistryIsRead(s, i);
    MergedKeyed(Sources(s));
    hide Merged, CleanEmail, Sources, Entered;
    ArchiveCovers(map[], Merged(Sources(s)), reason, now);
    assert CleanEmail(s.registry[i]) in Entered(map[], Merged(Sources(s)), reason, now);
  }

  /** The sweep is needed: if it fails twice before anything is archived, and the first pass then
      fails to archive, an expired trial is recorded as a deleted account. */
  lemma MissedSweepsLoseTheReason(s: Slice, now: int, pick: string)
    requires TrialTenant(s) && DueForDeletion(s, now) && s.ledger == map[] && Fits(Merged(Sources(s)))
    requires Pick(s.subs, Own(s.id)).Some? && Pick(s.subs, Own(s.id)).value.status == Trial
    ensures var t := RunPasses(s, [Pass(now, pick, MISSED_SWEEP), Pass(now, pick, MISSED_SWEEP_AGAIN)]);
            t.ledger != map[] && AllStatus(t.ledger, AccountDeleted)
  {
    PickIsNewest(s.subs, Own(s.id));
    var t := CloseAccess(s);
    assert t.subs == s.subs && t.id == s.id && Sources(t) == Sources(s);
    MissedSweepPass(s, now, pick, MISSED_SWEEP);
    assert Delete(s, now, pick, RecordFails) == t;
    MissedSweepPass(t, now, pick, MISSED_SWEEP_AGAIN);
    FirstArchiveRecords(t, AccountDeleted, now);
    DeletionMislabels(t, now, pick);
    var p, q := Pass(now, pick, MISSED_SWEEP), Pass(now, pick, MISSED_SWEEP_AGAIN);
    hide CleanupPass, TrialTenant, Pick, Delete, Entered, Merged, Sources;
    RunOnePass(t, q);
    assert [p, q][1..] == [q];
  }

  // ---- When the recorded reason is safe from missed sweeps ----

  ghost predicate NewestPasses(s: Slice, passes: seq<Pass>)
    decreases passes
  {
    passes != [] ==>
      && PicksNewest(s, passes[0])
      && NewestPasses(CleanupPass(s, passes[0].now, passes[0].pick, passes[0].faults), passes[1..])
  }

  lemma {:induction false} AnchoredPassesKeepTrial(s: Slice, passes: seq<Pass>)
    requires TrialTenant(s) && (s.row.None? || Anchored(s)) && NewestPasses(s, passes)
    ensures TrialTenant(RunPasses(s, passes))
    decreases passes
  {
    if passes != [] {
      var p := passes[0];
      assert Steady(s, p);
      hide TrialTenant, Anchored, PicksNewest, Steady, CleanupPass;
      PassKeepsTrial(s, p);
      if s.row.Some? { PassKeepsAnchored(s, p); } else { NoRowStays(s, p); }
      AnchoredPassesKeepTrial(CleanupPass(s, p.now, p.pick, p.faults), passes[1..]);
    }
  }

  lemma TooWideKeepsLedger(s: Slice, p: Pass)
    requires !Fits(Merged(Sources(s)))
    ensures var t := CleanupPass(s, p.now, p.pick, p.faults); t.ledger == s.ledger && Sources(t) == Sources(s)
  {
    var swept := AfterSweep(s, p.now, p.faults);
    assert swept == s.(row := swept.row, subs := swept.subs);
    assert Sources(swept) == Sources(s);
    hide AfterSweep, ReasonFor, RecordDue, Fits, Merged;
  }

  /** A name too wide for its column keeps every archive from writing anything. */
  lemma {:induction false} TooWidePassesKeepLedger(s: Slice, passes: seq<Pass>)
    requires !Fits(Merged(Sources(s)))
    ensures RunPasses(s, passes).ledger == s.ledger
    decreases passes
  {
    if passes != [] {
      TooWideKeepsLedger(s, passes[0]);
      hide CleanupPass, Fits, Merged, Sources;
      TooWidePassesKeepLedger(CleanupPass(s, passes[0].now, passes[0].pick, passes[0].faults), passes[1..]);
    }
  }

  lemma {:induction false} NewestRowExists(ledger: RetiredUsers, todo: set<string>) returns (pick: string)
    requires todo <= ledger.Keys && todo != {}
    ensures pick in todo && forall e :: e in todo ==> ledger[e].updatedAt <= ledger[pick].updatedAt
    decreases todo
  {
    var e :| e in todo;
    pick := e;
    if todo != {e} {
      assert (forall d :: d !in todo - {e}) ==> todo - {e} == {};
      var other := NewestRowExists(ledger, todo - {e});
      if ledger[other].updatedAt > ledger[e].updatedAt { pick := other; }
    }
  }

  /** A pass that misses the sweep of the rows reads the ledger as it stands. */
  lemma MissedSweepReadsLedger(s: Slice, p: Pass)
    requires p.faults.rows && !p.faults.record && s.row.Some? && !Lapsed(s.subs, s.id) && !RecordDue(s)
    ensures PicksNewest(s, p) <==> LatestRow(s.ledger, p.pick)
  {}

  lemma EntryTakesReason(s: Slice, reason: Reason, now: int)
    requires exists i :: 0 <= i < |s.registry| && CleanEmail(s.registry[i]) != ""
    ensures exists e :: e in Entered(s.ledger, Merged(Sources(s)), reason, now) && Entered(s.ledger, Merged(Sources(s)), reason, now)[e].status == reason
  {
    var i :| 0 <= i < |s.registry| && CleanEmail(s.registry[i]) != "";
    RegistryIsRead(s, i);
    MergedKeyed(Sources(s));
    hide Merged, CleanEmail, Sources, Entered;
    ArchiveCovers(s.ledger, Merged(Sources(s)), reason, now);
    assert CleanEmail(s.registry[i]) in Entered(s.ledger, Merged(Sources(s)), reason, now);
  }

  lemma LateDeletionMislabels(s: Slice, now: int, pick: string)
    requires DueForDeletion(s, now) && !IsTerminated(s) && Fits(Merged(Sources(s)))
    requires s.row.value.trialExpires.Some? ==> now < s.row.value.trialExpires.value
    requires Pick(s.subs, Own(s.id)).Some? && Pick(s.subs, Own(s.id)).value.status == Trial
    ensures Delete(s, now, pick, DropFails(true)).ledger == Entered(s.ledger, Merged(Sources(s)), AccountDeleted, now)
  {}

  /** One missed sweep mislabels an open tenant whose own expiry date is missing or late. */
  lemma LateTrialLosesReason(s: Slice) returns (passes: seq<Pass>)
    requires TrialTenant(s) && s.row.Some? && !Anchored(s) && s.ledger != map[] && Fits(Merged(Sources(s)))
    ensures NewestPasses(s, passes) && !AllStatus(RunPasses(s, passes).ledger, TrialExpired)
  {
    LatestIsTrial(s);
    assert (forall e :: e !in s.ledger) ==> s.ledger == map[];
    assert s.ledger.Keys != {};
    var pick := NewestRowExists(s.ledger, s.ledger.Keys);
    var now := s.row.value.deletionAt.value;
    var p := Pass(now, pick, MISSED_SWEEP_AGAIN);
    passes := [p];
    MissedSweepReadsLedger(s, p);
    MissedSweepPass(s, now, pick, MISSED_SWEEP_AGAIN);
    LateDeletionMislabels(s, now, pick);
    EntryTakesReason(s, AccountDeleted, now);
    hide CleanupPass, TrialTenant, PicksNewest, Delete, Entered, Merged, Sources, Pick, Paid, Lapsed, Fits;
    RunOnePass(s, p);
    assert passes[1..] == [];
  }

  lemma TwoNewestPasses(s: Slice, p: Pass, q: Pass)
    requires PicksNewest(s, p) && PicksNewest(CleanupPass(s, p.now, p.pick, p.faults), q)
    ensures NewestPasses(s, [p, q])
  {
    hide PicksNewest, CleanupPass;
    var t := CleanupPass(s, p.now, p.pick, p.faults);
    assert [p, q][1..] == [q] && [q][1..] == [];
    assert NewestPasses(CleanupPass(t, q.now, q.pick, q.faults), []);
    assert NewestPasses(t, [q]);
  }

  lemma MissedSweepCloses(s: Slice, now: int)
    requires DueForDeletion(s, now) && !Lapsed(s.subs, s.id)
    requires Pick(s.subs, Own(s.id)).Some? && Pick(s.subs, Own(s.id)).value.status == Trial
    ensures CleanupPass(s, now, s.id, MISSED_SWEEP) == CloseAccess(s)
  {
    MissedSweepPass(s, now, s.id, MISSED_SWEEP);
    hide CleanupPass;
  }

  lemma MissedSweepsReadNewest(s: Slice, now: int)
    requires DueForDeletion(s, now) && s.ledger == map[] && !Lapsed(s.subs, s.id)
    requires Pick(s.subs, Own(s.id)).Some? && Pick(s.subs, Own(s.id)).value.status == Trial
    ensures NewestPasses(s, [Pass(now, s.id, MISSED_SWEEP), Pass(now, s.id, MISSED_SWEEP_AGAIN)])
  {
    var p, q, t := Pass(now, s.id, MISSED_SWEEP), Pass(now, s.id, MISSED_SWEEP_AGAIN), CloseAccess(s);
    MissedSweepCloses(s, now);
    assert !RecordDue(s) && !RecordDue(t);
    hide CleanupPass, PicksNewest, Pick, Paid, Lapsed, RecordDue;
    MissedSweepReadsLedger(s, p);
    MissedSweepReadsLedger(t, q);
    TwoNewestPasses(s, p, q);
  }

  /** Two missed sweeps mislabel a tenant whose ledger is still empty. */
  lemma UnrecordedTrialLosesReason(s: Slice) returns (passes: seq<Pass>)
    requires TrialTenant(s) && s.row.Some? && !Anchored(s) && s.ledger == map[] && Fits(Merged(Sources(s)))
    ensures NewestPasses(s, passes) && !AllStatus(RunPasses(s, passes).ledger, TrialExpired)
  {
    LatestIsTrial(s);
    var now := s.row.value.deletionAt.value;
    passes := [Pass(now, s.id, MISSED_SWEEP), Pass(now, s.id, MISSED_SWEEP_AGAIN)];
    MissedSweepsLoseTheReason(s, now, s.id);
    MissedSweepsReadNewest(s, now);
    hide TrialTenant, Merged, Sources, Pick, Paid, Lapsed, Fits, RunPasses, NewestPasses;
    var l := RunPasses(s, passes).ledger;
    assert (forall e :: e !in l) ==> l == map[];
    var e :| e in l;
    assert l[e].status == AccountDeleted;
  }

  /** A tenant that never subscribed keeps TRIAL_EXPIRED through every sequence of passes, with any
      faults and any missed sweeps, exactly when its row is already gone, it is anchored, or an address
      too long for the ledger keeps anything from being recorded. */
  lemma TrialLedgerIsStableIff(s: Slice)
    requires TrialTenant(s)
    ensures (forall passes :: NewestPasses(s, passes) ==> AllStatus(RunPasses(s, passes).ledger, TrialExpired))
            <==> s.row.None? || Anchored(s) || !Fits(Merged(Sources(s)))
  {
    hide Fits, Merged, Sources, RunPasses, NewestPasses, Anchored;
    if s.row.None? || Anchored(s) {
      forall passes | NewestPasses(s, passes) ensures AllStatus(RunPasses(s, passes).ledger, TrialExpired) {
        AnchoredPassesKeepTrial(s, passes);
      }
    } else if !Fits(Merged(Sources(s))) {
      forall passes ensures AllStatus(RunPasses(s, passes).ledger, TrialExpired) {
        TooWidePassesKeepLedger(s, passes);
      }
    } else if s.ledger == map[] {
      var passes := UnrecordedTrialLosesReason(s);
    } else {
      var passes := LateTrialLosesReason(s);
    }
  }

  /** As registration sets the tenant's own expiry date to the end of its trial, its reason is safe
      from missed sweeps as soon as the trial row is marked expired or anything is in the ledger. */
  lemma RegisteredTrialIsStableIff(s: Slice)
    requires TrialTenant(s) && (s.row.Some? ==> EndsInTime(s.row.value))
    ensures (forall passes :: NewestPasses(s, passes) ==> AllStatus(RunPasses(s, passes).ledger, TrialExpired))
            <==> s.row.None? || RecordDue(s) || s.ledger != map[] || !Fits(Merged(Sources(s)))
  {
    TrialLedgerIsStableIff(s);
    hide Fits, Merged, Sources, RunPasses, NewestPasses, TrialTenant, RecordDue;
  }
}
