/** Deletion against everything else that may happen to the tenant meanwhile: every statement is a
    step, any step may be the last of its request, and any other actor may move between two steps. */
module LifecycleRuns {
  import opened Base
  import opened Subscriptions
  import opened Retirement
  import opened Lifecycle

  /** How far the deletion in progress has come. The delete lock admits one at a time. */
  datatype Phase = AccessClosed(reason: Reason) | Collected(reason: Reason, users: map<string, Identity>) | InLedger | DbDropped

  /** `lost` gathers the addresses a dropped `users` table held and the ledger did not; `openDrop`
      tells whether a database was ever dropped while its tenant was not terminated. */
  datatype Scene = Scene(s: Slice, phase: Option<Phase>, lost: set<string>, openDrop: bool)

  datatype Action =
    | ExpireRows(now: int)
    | ExpireAccount
    | Serve(next: Slice)
    | Provision(next: Slice)
    | Deliver(store: Store, delivery: Delivery, now: int)
    | SignUp(pending: seq<Applicant>)
    | RecordTrial(now: int)
    | BeginDelete(now: int, pick: string)
    | Collect
    | Enter(now: int)
    | DropDatabase
    | RemoveRows
    | Abandon(mark: bool)

  predicate HasAccount(s: Slice, account: AccountStatus) { s.row.Some? && s.row.value.account == account }

  /** A request of the tenant, with any effect on what the tenant owns: it is served only while the account
      is active, and no request changes that. */
  predicate Served(s: Slice, next: Slice) {
    && HasAccount(s, AccountActive) && HasAccount(next, AccountActive)
    && next.id == s.id && next.ledger == s.ledger && s.registry <= next.registry
  }

  /** A provisioning attempt, which recovery may start while the account is not active: the only users it
      writes have a registered address. */
  predicate Provisioned(s: Slice, next: Slice) {
    && s.row.Some? && !IsTerminated(s) && HasAccount(next, s.row.value.account)
    && next == s.(row := next.row, db := next.db, accounts := next.accounts, pending := next.pending)
    && UserEmails(next) <= UserEmails(s) + Emails(FromRegistry(s.registry))
  }

  /** A webhook request over control tables that agree with this slice, reads and transaction together. */
  function Delivered(s: Slice, store: Store, d: Delivery, now: int): Slice {
    var p := Prepare(store, d, now);
    if s.row.None? || store.subs != s.subs || Get(store.accounts, s.id) != Some(s.row.value.account)
       || p.None? || p.value.tenant != s.id then s
    else
      var after := Commit(store, p.value);
      s.(subs := after.subs, row := Some(s.row.value.(account := if s.id in after.accounts then after.accounts[s.id] else s.row.value.account)))
  }

  function EnterLedger(w: Scene, now: int): Scene {
    if w.phase.None? || !w.phase.value.Collected? then w
    else
      var l := Archived(w.s.ledger, w.phase.value.users, w.phase.value.reason, now);
      if l.None? then w.(phase := None) else w.(s := w.s.(ledger := l.value), phase := Some(InLedger))
  }

  function Drop(w: Scene): Scene {
    Scene(w.s.(db := None), Some(DbDropped), w.lost + (UserEmails(w.s) - w.s.ledger.Keys),
          w.openDrop || (w.s.db.Some? && !IsTerminated(w.s)))
  }

  function Step(w: Scene, a: Action): Scene {
    match a
    case ExpireRows(now) => w.(s := SweepRows(w.s, now))
    case ExpireAccount => w.(s := SweepAccount(w.s))
    case Serve(next) => if Served(w.s, next) then w.(s := next) else w
    case Provision(next) => if Provisioned(w.s, next) then w.(s := next) else w
    case Deliver(store, d, now) => w.(s := Delivered(w.s, store, d, now))
    case SignUp(pending) => w.(s := w.s.(pending := pending))
    case RecordTrial(now) =>
      if RecordDue(w.s) && Archive(w.s, TrialExpired, now).Some? then w.(s := Archive(w.s, TrialExpired, now).value) else w
    case BeginDelete(now, pick) =>
      if w.phase.Some? || !Deletable(w.s, now) then w
      else w.(s := CloseAccess(w.s), phase := Some(AccessClosed(ReasonFor(w.s, w.s.row.value, pick, now))))
    case Collect =>
      if w.phase.None? || !w.phase.value.AccessClosed? then w
      else w.(phase := Some(Collected(w.phase.value.reason, Merged(Sources(w.s)))))
    case Enter(now) => EnterLedger(w, now)
    case DropDatabase => if w.phase == Some(InLedger) then Drop(w) else w
    case RemoveRows => if w.phase == Some(DbDropped) then w.(s := Remove(w.s), phase := None) else w
    case Abandon(mark) => w.(s := if mark && w.phase == Some(InLedger) then MarkFailed(w.s) else w.s, phase := None)
  }

  function Run(w: Scene, actions: seq<Action>): Scene
    decreases actions
  {
    if actions == [] then w else Run(Step(w, actions[0]), actions[1..])
  }

  /** The steps of one deletion that meets this fault, when nobody else moves. */
  function StepsOf(now: int, pick: string, fault: DeleteFault): seq<Action> {
    match fault
    case CloseFails => []
    case ReadFails => [BeginDelete(now, pick), Abandon(false)]
    case RecordFails => [BeginDelete(now, pick), Collect, Abandon(false)]
    case DropFails(marked) => [BeginDelete(now, pick), Collect, Enter(now), Abandon(marked)]
    case RemoveFails => [BeginDelete(now, pick), Collect, Enter(now), DropDatabase, Abandon(false)]
    case Unfaulted => [BeginDelete(now, pick), Collect, Enter(now), DropDatabase, RemoveRows]
  }

  lemma RunStep(w: Scene, a: Action, rest: seq<Action>)
    ensures Run(w, [a] + rest) == Run(Step(w, a), rest)
  {}

  lemma RunIdle(w: Scene, actions: seq<Action>)
    requires w.phase.None?
    requires forall i :: 0 <= i < |actions| ==>
               actions[i] in {Collect, DropDatabase, RemoveRows} || actions[i].Enter? || actions[i].Abandon?
    ensures Run(w, actions) == w
    decreases actions
  {}

  /** After a successful archive, the rest of the steps is `DropAndRemove`. */
  lemma DropStepsAreDropAndRemove(w: Scene, fault: DeleteFault)
    requires w.phase == Some(InLedger) && fault in {RemoveFails, Unfaulted, DropFails(true), DropFails(false)}
    ensures var rest := if fault.DropFails? then [Abandon(fault.marked)]
                        else if fault == RemoveFails then [DropDatabase] + [Abandon(false)] else [DropDatabase] + [RemoveRows];
            Run(w, rest).s == DropAndRemove(w.s, fault) && Run(w, rest).phase.None?
  {
    hide UserEmails, IsTerminated;
    if fault.DropFails? {
      RunStep(w, Abandon(fault.marked), []);
      assert [Abandon(fault.marked)] + [] == [Abandon(fault.marked)];
    } else {
      var x := Step(w, DropDatabase);
      var last := if fault == RemoveFails then Abandon(false) else RemoveRows;
      RunStep(w, DropDatabase, [last]);
      RunStep(x, last, []);
      assert [last] + [] == [last];
    }
  }

  /** The retrying procedure is these steps run without interruption. */
  lemma DeletionIsItsSteps(w: Scene, now: int, pick: string, fault: DeleteFault)
    requires w.phase.None?
    ensures Run(w, StepsOf(now, pick, fault)).s == Delete(w.s, now, pick, fault)
    ensures Run(w, StepsOf(now, pick, fault)).phase.None?
  {
    var steps := StepsOf(now, pick, fault);
    if fault != CloseFails {
      assert steps == [BeginDelete(now, pick)] + steps[1..];
      RunStep(w, BeginDelete(now, pick), steps[1..]);
      var x := Step(w, BeginDelete(now, pick));
      if !Deletable(w.s, now) {
        RunIdle(x, steps[1..]);
      } else {
        RetireIsItsSteps(x, now, fault);
      }
    }
    hide Step, Run, Retire, ReasonFor, Deletable;
  }

  lemma RetireIsItsSteps(x: Scene, now: int, fault: DeleteFault)
    requires x.phase.Some? && x.phase.value.AccessClosed? && fault != CloseFails
    ensures var rest := StepsOf(now, x.s.id, fault)[1..];
            Run(x, rest).s == Retire(x.s, x.phase.value.reason, now, fault) && Run(x, rest).phase.None?
  {
    var rest := StepsOf(now, x.s.id, fault)[1..];
    if fault == ReadFails {
      RunStep(x, Abandon(false), []);
      assert rest == [Abandon(false)] + [];
    } else {
      assert rest == [Collect] + StepsOf(now, x.s.id, fault)[2..];
      RunStep(x, Collect, StepsOf(now, x.s.id, fault)[2..]);
      CollectedIsItsSteps(x, now, fault);
      hide Run, Step, Retire, StepsOf;
    }
  }

  lemma CollectedIsItsSteps(x: Scene, now: int, fault: DeleteFault)
    requires x.phase.Some? && x.phase.value.AccessClosed? && fault != CloseFails && fault != ReadFails
    ensures var y, rest := Step(x, Collect), StepsOf(now, x.s.id, fault)[2..];
            Run(y, rest).s == Retire(x.s, x.phase.value.reason, now, fault) && Run(y, rest).phase.None?
  {
    var y, rest := Step(x, Collect), StepsOf(now, x.s.id, fault)[2..];
    hide DropAndRemove;
    if fault == RecordFails {
      RunStep(y, Abandon(false), []);
      assert rest == [Abandon(false)] + [];
    } else {
      EnterIsArchive(x, now);
      var z := Step(y, Enter(now));
      assert rest == [Enter(now)] + rest[1..];
      RunStep(y, Enter(now), rest[1..]);
      hide Step, Archive;
      if Archive(x.s, x.phase.value.reason, now).None? {
        RunIdle(z, rest[1..]);
      } else {
        DropStepsAreDropAndRemove(z, fault);
      }
    }
  }

  lemma EnterIsArchive(x: Scene, now: int)
    requires x.phase.Some? && x.phase.value.AccessClosed?
    ensures var z, a := Step(Step(x, Collect), Enter(now)), Archive(x.s, x.phase.value.reason, now);
            z.s == (if a.None? then x.s else a.value) && z.phase == if a.None? then None else Some(InLedger)
  {}

  // ---- Safety ----

  ghost predicate Safe(w: Scene) { w.lost == {} && !w.openDrop }

  /** Access stays closed: terminated, and no sweep can ever lift that. */
  ghost predicate Shut(s: Slice) { IsTerminated(s) && !Reawakenable(s.subs, s.id) }

  ghost predicate Covered(w: Scene) {
    match w.phase
    case None => true
    case Some(AccessClosed(_)) => true
    case Some(Collected(_, users)) => UserEmails(w.s) <= users.Keys
    case Some(InLedger) => UserEmails(w.s) <= w.s.ledger.Keys
    case Some(DbDropped) => w.s.db.None?
  }

  ghost predicate Guarded(w: Scene) {
    && Safe(w) && Covered(w)
    && (w.phase.Some? ==> Shut(w.s))
    && (w.s.row.None? ==> w.s.db.None?)
  }

  lemma UsersAreCollected(s: Slice)
    ensures UserEmails(s) <= Merged(Sources(s)).Keys
  {
    hide Emails, FirstId, FirstName;
    forall e | e in UserEmails(s) ensures e in Emails(Sources(s)) { MoreSourcesKeep(ControlSources(s), LocalSources(s), e); }
  }

  lemma SweepsKeepGuarded(w: Scene, now: int)
    requires Guarded(w)
    ensures Guarded(w.(s := SweepRows(w.s, now))) && Guarded(w.(s := SweepAccount(w.s)))
  {
    hide Emails;
    if w.phase.Some? {
      SweepKeepsAsleep(w.s.subs, now, w.s.id);
      AsleepNeverLapsed(w.s.subs, w.s.id);
    }
    hide Reawakenable, Lapsed, SweepSubs;
  }

  lemma EnterKeepsGuarded(w: Scene, now: int)
    requires Guarded(w)
    ensures Guarded(EnterLedger(w, now))
  {}

  lemma RecordKeepsGuarded(w: Scene, now: int)
    requires Guarded(w) && Archive(w.s, TrialExpired, now).Some?
    ensures Guarded(w.(s := Archive(w.s, TrialExpired, now).value))
  {}

  lemma StepKeepsGuarded(w: Scene, a: Action)
    requires Guarded(w)
    requires a.BeginDelete? ==> !Reawakenable(w.s.subs, w.s.id)
    ensures Guarded(Step(w, a))
  {
    hide Emails, Reawakenable, SweepSubs, Lapsed, Archived, RecordDue, Merged, Paid, ReasonFor;
    match a
    case ExpireRows(now) => { SweepsKeepGuarded(w, now); hide Guarded; }
    case ExpireAccount => { SweepsKeepGuarded(w, 0); hide Guarded; }
    case RecordTrial(now) => { if Archive(w.s, TrialExpired, now).Some? { RecordKeepsGuarded(w, now); } hide Guarded; }
    case Enter(now) => { EnterKeepsGuarded(w, now); hide Guarded; }
    case Collect => UsersAreCollected(w.s);
    case _ =>
  }

  /** Every deletion of the run starts when no sweep can lift a termination any more. */
  ghost predicate Lawful(w: Scene, actions: seq<Action>)
    decreases actions
  {
    actions != [] ==>
      (actions[0].BeginDelete? ==> !Reawakenable(w.s.subs, w.s.id)) && Lawful(Step(w, actions[0]), actions[1..])
  }

  /** In every run with faults at any phase and any interleaving: a database is dropped only while its
      tenant is terminated and once every address of its `users` table is in the ledger, and the
      tenant row goes only after the database. */
  lemma {:induction false} RetirementIsSafe(w: Scene, actions: seq<Action>)
    requires Guarded(w) && Lawful(w, actions)
    ensures Guarded(Run(w, actions))
    decreases actions
  {
    hide Guarded, Step, Reawakenable;
    if actions != [] {
      StepKeepsGuarded(w, actions[0]);
      RetirementIsSafe(Step(w, actions[0]), actions[1..]);
    }
  }

  /** No step ever takes a registration from the registry or a user from the ledger. */
  lemma StepKeepsRegistry(w: Scene, a: Action)
    ensures w.s.registry <= Step(w, a).s.registry && w.s.ledger.Keys <= Step(w, a).s.ledger.Keys
  {}

  lemma {:induction false} RegistryIsPermanent(w: Scene, actions: seq<Action>)
    ensures w.s.registry <= Run(w, actions).s.registry && w.s.ledger.Keys <= Run(w, actions).s.ledger.Keys
    decreases actions
  {
    hide Step;
    if actions != [] {
      StepKeepsRegistry(w, actions[0]);
      RegistryIsPermanent(Step(w, actions[0]), actions[1..]);
    }
  }

  // ---- The condition is exact ----

  ghost predicate NoNewDeletion(actions: seq<Action>) {
    forall i :: 0 <= i < |actions| ==> !actions[i].BeginDelete?
  }

  lemma {:induction false} OneDeletionIsLawful(w: Scene, actions: seq<Action>)
    requires NoNewDeletion(actions)
    ensures Lawful(w, actions)
    decreases actions
  {
    hide Step;
    if actions != [] { OneDeletionIsLawful(Step(w, actions[0]), actions[1..]); }
  }

  /** A deletion has just shut the tenant out; its database is there and its archive will succeed. */
  ghost predicate JustClosed(w: Scene) {
    && Safe(w) && w.phase.Some? && w.phase.value.AccessClosed? && IsTerminated(w.s)
    && w.s.db.Some? && Fits(Merged(Sources(w.s)))
  }

  /** The sweep reopens the tenant after its users were read and before its database is dropped. */
  function Overtaken(now: int): seq<Action> {
    [Collect, Enter(now), ExpireRows(now), ExpireAccount, DropDatabase]
  }

  lemma RunTwo(w: Scene, a: Action, b: Action, rest: seq<Action>)
    ensures Run(w, [a, b] + rest) == Run(Step(Step(w, a), b), rest)
  {}

  lemma ArchivedScene(w: Scene, now: int)
    requires JustClosed(w)
    ensures var x := Step(Step(w, Collect), Enter(now));
            x.phase == Some(InLedger) && x.s == w.s.(ledger := x.s.ledger) && x.s.db.Some? && IsTerminated(x.s)
  {}

  lemma ReopenedScene(x: Scene, now: int)
    requires x.phase == Some(InLedger) && IsTerminated(x.s) && Lapsed(SweepSubs(x.s.subs, now), x.s.id)
    ensures var y := Step(Step(x, ExpireRows(now)), ExpireAccount);
            && y.phase == x.phase && y.s.db == x.s.db && HasAccount(y.s, AccountExpired) && y.s.ledger == x.s.ledger
            && y.s.id == x.s.id && y.s.subs == SweepSubs(x.s.subs, now)
  {}

  /** Once access is closed, the rest of the deletion is safe in every continuation exactly when the
      tenant holds no provider-backed subscription a sweep may still find lapsed. */
  lemma RetirementIsSafeIff(w: Scene)
    requires JustClosed(w)
    ensures (forall actions :: NoNewDeletion(actions) ==> Safe(Run(w, actions))) <==> !Reawakenable(w.s.subs, w.s.id)
  {
    if !Reawakenable(w.s.subs, w.s.id) {
      forall actions | NoNewDeletion(actions) ensures Safe(Run(w, actions)) {
        OneDeletionIsLawful(w, actions);
        RetirementIsSafe(w, actions);
      }
    } else {
      ReawakenableIffLapsesSometime(w.s.subs, w.s.id);
      var now :| Lapsed(SweepSubs(w.s.subs, now), w.s.id);
      OvertakenIsUnsafe(w, now);
      assert NoNewDeletion(Overtaken(now));
    }
  }

  lemma OvertakenIsUnsafe(w: Scene, now: int)
    requires JustClosed(w) && Lapsed(SweepSubs(w.s.subs, now), w.s.id)
    ensures !Safe(Run(w, Overtaken(now)))
  {
    ArchivedScene(w, now);
    var x := Step(Step(w, Collect), Enter(now));
    ReopenedScene(x, now);
    var y := Step(Step(x, ExpireRows(now)), ExpireAccount);
    assert Step(y, DropDatabase).openDrop;
    hide Step, Lapsed, SweepSubs;
    RunTwo(w, Collect, Enter(now), [ExpireRows(now), ExpireAccount, DropDatabase]);
    RunTwo(x, ExpireRows(now), ExpireAccount, [DropDatabase]);
    assert Run(y, [DropDatabase]) == Step(y, DropDatabase) by { assert [DropDatabase][1..] == []; }
    assert Overtaken(now) == [Collect, Enter(now)] + [ExpireRows(now), ExpireAccount, DropDatabase];
    assert [ExpireRows(now), ExpireAccount, DropDatabase] == [ExpireRows(now), ExpireAccount] + [DropDatabase];
  }

  /** What `CreateUser` leaves behind. */
  function WithUser(s: Slice, u: User): Slice {
    s.(db := Some(Database(true, (if s.db.Some? then s.db.value.users else []) + [u])),
       accounts := s.accounts + [Account(u.id, u.email)])
  }

  /** The control tables as the webhook finds them, with the plan of the lapsed row still on offer. */
  function ControlTables(s: Slice, row: Sub): Store {
    Store(map[s.id := if s.row.Some? then s.row.value.account else Terminated], s.subs, [], map[row.plan := row.userLimit], {}, row.id + 1)
  }

  lemma RenewalReopens(y: Scene, row: Sub, event: string, now: int)
    requires HasAccount(y.s, AccountExpired) && OneRowPerRef(y.s.subs)
    requires row in y.s.subs && row.tenant == y.s.id && row.ref.Some? && row.ref.value != ""
    ensures var z := Step(y, Deliver(ControlTables(y.s, row), Delivery(event, Charged, row.ref.value, 0, 0), now));
            HasAccount(z.s, AccountActive) && z == y.(s := y.s.(row := z.s.row, subs := z.s.subs))
  {
    var i :| 0 <= i < |y.s.subs| && y.s.subs[i] == row;
    SubOwnerIsTheRow(y.s.subs, row.ref.value);
    hide SubOwner, CheckoutOwner, Upsert, OneRowPerRef;
  }

  /** What that costs: the provider renews the lapsed subscription, the account is active again, and a user
      the tenant creates between the archive and the drop is in no table and no ledger afterwards. */
  lemma ReopenedTenantsLoseUsers(w: Scene, now: int, row: Sub, event: string, u: User)
    requires JustClosed(w) && Lapsed(SweepSubs(w.s.subs, now), w.s.id) && OneRowPerRef(w.s.subs)
    requires row in SweepSubs(w.s.subs, now) && row.tenant == w.s.id && row.ref.Some? && row.ref.value != ""
    requires CleanEmail(u.email) != "" && CleanEmail(u.email) !in w.s.ledger && CleanEmail(u.email) !in Merged(Sources(w.s))
    ensures exists actions :: NoNewDeletion(actions) && CleanEmail(u.email) in Run(w, actions).lost
  {
    ArchivedScene(w, now);
    var x := Step(Step(w, Collect), Enter(now));
    ReopenedScene(x, now);
    LedgerAfterArchive(w, now, CleanEmail(u.email));
    var y := Step(Step(x, ExpireRows(now)), ExpireAccount);
    SweepKeepsRefs(w.s.subs, now);
    RenewalReopens(y, row, event, now);
    var renew := Deliver(ControlTables(y.s, row), Delivery(event, Charged, row.ref.value, 0, 0), now);
    var z := Step(y, renew);
    var serve := Serve(WithUser(z.s, u));
    DropLoses(z, u);
    hide Step, Lapsed, SweepSubs, CleanEmail, JustClosed, OneRowPerRef;
    var last := [renew, serve] + ([DropDatabase] + []);
    RunTwo(w, Collect, Enter(now), [ExpireRows(now), ExpireAccount] + last);
    RunTwo(x, ExpireRows(now), ExpireAccount, last);
    RunTwo(y, renew, serve, [DropDatabase] + []);
    RunStep(Step(z, serve), DropDatabase, []);
    assert NoNewDeletion([Collect, Enter(now)] + ([ExpireRows(now), ExpireAccount] + last));
  }

  lemma SweepKeepsRefs(subs: seq<Sub>, now: int)
    requires OneRowPerRef(subs)
    ensures OneRowPerRef(SweepSubs(subs, now))
  {}

  lemma LedgerAfterArchive(w: Scene, now: int, e: string)
    requires JustClosed(w) && e !in w.s.ledger && e !in Merged(Sources(w.s))
    ensures e !in Step(Step(w, Collect), Enter(now)).s.ledger
  {}

  lemma DropLoses(y: Scene, u: User)
    requires y.phase == Some(InLedger) && HasAccount(y.s, AccountActive)
    requires CleanEmail(u.email) != "" && CleanEmail(u.email) !in y.s.ledger
    ensures CleanEmail(u.email) in Step(Step(y, Serve(WithUser(y.s, u))), DropDatabase).lost
  {
    hide CleanEmail;
    var next := WithUser(y.s, u);
    var src := FromUsers(next.db.value.users);
    assert src[|src| - 1].email == u.email;
    assert CleanEmail(u.email) in Emails(src);
  }

  // ---- What the other actors may do ----

  /** A served request may do anything to what the tenant owns; a provisioning attempt leaves the subscriptions, the
      registry and the ledger alone and brings in registered addresses only; a pass records an expired trial. */
  lemma ActorOutcome(w: Scene, next: Slice, pending: seq<Applicant>, now: int)
    ensures Step(w, SignUp(pending)) == Scene(Slice(w.s.id, w.s.row, w.s.subs, w.s.accounts, pending, w.s.registry, w.s.ledger, w.s.db),
                                              w.phase, w.lost, w.openDrop)
    ensures Step(w, Serve(next))
            == if HasAccount(w.s, AccountActive) && HasAccount(next, AccountActive) && next.id == w.s.id && next.ledger == w.s.ledger
                  && w.s.registry <= next.registry then Scene(next, w.phase, w.lost, w.openDrop) else w
    ensures Step(w, Provision(next))
            == if w.s.row.Some? && w.s.row.value.account != Terminated && HasAccount(next, w.s.row.value.account)
                  && next.id == w.s.id && next.subs == w.s.subs && next.registry == w.s.registry && next.ledger == w.s.ledger
                  && (forall e :: e in UserEmails(next) ==> e in UserEmails(w.s) || e in Emails(FromRegistry(w.s.registry)))
               then Scene(next, w.phase, w.lost, w.openDrop) else w
    ensures var archived := Archive(w.s, TrialExpired, now);
            Step(w, RecordTrial(now)) == Scene(if RecordDue(w.s) && archived.Some? then archived.value else w.s, w.phase, w.lost, w.openDrop)
  {
    hide UserEmails, Emails, FromRegistry, Archive, RecordDue;
    assert Provisioned(w.s, next) ==> next.id == w.s.id && next.subs == w.s.subs && next.registry == w.s.registry && next.ledger == w.s.ledger;
  }

  /** The control tables say of this tenant what its slice does. */
  predicate Agrees(s: Slice, store: Store) {
    s.row.Some? && store.subs == s.subs && s.id in store.accounts && store.accounts[s.id] == s.row.value.account
  }

  /** A delivery over them leaves the subscriptions and the account of the slice as it leaves theirs. */
  lemma DeliveredOutcome(w: Scene, store: Store, d: Delivery, now: int)
    requires Agrees(w.s, store) && Prepare(store, d, now).Some? && Prepare(store, d, now).value.tenant == w.s.id
    ensures var x, after := Step(w, Deliver(store, d, now)), Webhook(store, d, now);
            Agrees(x.s, after) && x == w.(s := w.s.(subs := x.s.subs, row := Some(w.s.row.value.(account := x.s.row.value.account))))
  {
    hide Prepare, Upsert;
  }
}
