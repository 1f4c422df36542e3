/** Subscription rows, the expiry sweep, the expiry computed on read, and the provider webhook. */
module Subscriptions {
  import opened Base

  datatype SubStatus = Trial | Active | PastDue | Suspended | Cancelled | Expired

  datatype AccountStatus = AccountActive | AccountSuspended | AccountExpired | Terminated

  /** `ref` is the provider's subscription reference; a trial has neither provider nor reference. */
  datatype Sub = Sub(
    id: int, tenant: string, plan: string, status: SubStatus,
    startsAt: int, endsAt: Option<int>, ref: Option<string>, userLimit: int)

  // ---- The two statements of the expiry sweep ----

  function SweepSub(s: Sub, now: int): Sub {
    if (s.status == Trial || s.status == Active) && s.endsAt.Some? && s.endsAt.value < now then s.(status := Expired) else s
  }

  function SweepSubs(subs: seq<Sub>, now: int): (swept: seq<Sub>)
    ensures |swept| == |subs|
  {
    seq(|subs|, i requires 0 <= i < |subs| => SweepSub(subs[i], now))
  }

  predicate Live(s: Sub) { s.status == Trial || s.status == Active || s.status == PastDue }

  /** The tenant holds an expired provider-backed subscription and no live one. */
  predicate Lapsed(subs: seq<Sub>, tenant: string) {
    && (exists i :: 0 <= i < |subs| && subs[i].tenant == tenant && subs[i].status == Expired && subs[i].ref.Some?)
    && (forall i :: 0 <= i < |subs| && subs[i].tenant == tenant ==> !Live(subs[i]))
  }

  function SweepAccounts(accounts: map<string, AccountStatus>, subs: seq<Sub>): map<string, AccountStatus> {
    map t | t in accounts :: if Lapsed(subs, t) then AccountExpired else accounts[t]
  }

  // ---- Expiry computed on read ----

  predicate Newer(a: Sub, b: Sub) { a.startsAt > b.startsAt || (a.startsAt == b.startsAt && a.id > b.id) }

  /** `... WHERE ok ORDER BY starts_at DESC, id DESC LIMIT 1` */
  function Pick(subs: seq<Sub>, ok: Sub -> bool): Option<Sub> {
    if subs == [] then None
    else
      var rest := Pick(subs[1..], ok);
      if ok(subs[0]) && (rest.None? || !Newer(rest.value, subs[0])) then Some(subs[0]) else rest
  }

  function Visible(tenant: string): Sub -> bool {
    (s: Sub) => s.tenant == tenant && (Live(s) || s.status == Expired)
  }

  function Seating(tenant: string, now: int): Sub -> bool {
    (s: Sub) => s.tenant == tenant && (s.status == Trial || s.status == Active) && (s.endsAt.None? || s.endsAt.value >= now)
  }

  /** What `resolveAccess` reports: the status, with due trials and subscriptions read as expired,
      and the plan. */
  function View(subs: seq<Sub>, tenant: string, now: int): Option<(SubStatus, string)> {
    var row := Pick(subs, Visible(tenant));
    if row.None? then None else Some((SweepSub(row.value, now).status, row.value.plan))
  }

  lemma {:induction false} PickIsNewest(subs: seq<Sub>, ok: Sub -> bool)
    ensures Pick(subs, ok).None? <==> forall s :: s in subs ==> !ok(s)
    ensures Pick(subs, ok).Some? ==>
              var m := Pick(subs, ok).value; m in subs && ok(m) && forall s :: s in subs && ok(s) ==> !Newer(s, m)
  {
    if subs != [] {
      PickIsNewest(subs[1..], ok);
      assert forall s :: s in subs <==> s == subs[0] || s in subs[1..];
    }
  }

  lemma {:induction false} PickAfterSweep(subs: seq<Sub>, tenant: string, at: int)
    ensures var before, after := Pick(subs, Visible(tenant)), Pick(SweepSubs(subs, at), Visible(tenant));
            after == if before.None? then None else Some(SweepSub(before.value, at))
  {
    if subs != [] {
      PickAfterSweep(subs[1..], tenant, at);
      assert SweepSubs(subs, at)[1..] == SweepSubs(subs[1..], at);
    }
  }

  function SweepAll(subs: seq<Sub>, times: seq<int>): seq<Sub>
    decreases times
  {
    if times == [] then subs else SweepAll(SweepSubs(subs, times[0]), times[1..])
  }

  /** Sweeping at any earlier times, any number of times, never changes the status or plan computed
      later: the swept column and the computed one agree. */
  lemma {:induction false} ComputedExpiryEqualsSweptExpiry(subs: seq<Sub>, times: seq<int>, tenant: string, now: int)
    requires forall k :: 0 <= k < |times| ==> times[k] <= now
    ensures View(SweepAll(subs, times), tenant, now) == View(subs, tenant, now)
    decreases times
  {
    if times != [] {
      PickAfterSweep(subs, tenant, times[0]);
      ComputedExpiryEqualsSweptExpiry(SweepSubs(subs, times[0]), times[1..], tenant, now);
    }
  }

  ghost predicate UniqueIds(subs: seq<Sub>) {
    forall i, j :: 0 <= i < j < |subs| ==> subs[i].id != subs[j].id
  }

  /** Whenever the computed status is TRIAL or ACTIVE, the seat-limit query of `CreateUser` reads
      the very row that access was decided on. */
  lemma SeatLimitReadsTheAccessRow(subs: seq<Sub>, tenant: string, now: int)
    requires UniqueIds(subs)
    requires View(subs, tenant, now).Some? && View(subs, tenant, now).value.0 in {Trial, Active}
    ensures Pick(subs, Seating(tenant, now)) == Pick(subs, Visible(tenant))
  {
    PickIsNewest(subs, Visible(tenant));
    PickIsNewest(subs, Seating(tenant, now));
    var m := Pick(subs, Visible(tenant)).value;
    assert Seating(tenant, now)(m);
    var s := Pick(subs, Seating(tenant, now)).value;
    assert Visible(tenant)(s);
    assert !Newer(m, s) && !Newer(s, m);
  }

  // ---- Access decision ----

  datatype Refusal = NotReady | AccountClosed | NoSubscription

  /** `resolveAccess` for a user whose platform account exists. */
  function ResolveAccess(account: AccountStatus, ready: bool, requireReady: bool, view: Option<(SubStatus, string)>):
    Result<(SubStatus, string), Refusal>
  {
    if requireReady && !ready then Err(NotReady)
    else if account != AccountActive then Err(AccountClosed)
    else if view.None? then Err(NoSubscription)
    else Ok(view.value)
  }

  /** The routes `AuthMiddleware` tells apart. */
  datatype Route = AccountRoute | ProvisionRoute | TenantRoute

  /** Whether a request with a valid token passes `AuthMiddleware`. */
  predicate Admitted(route: Route, recovery: bool, account: AccountStatus, ready: bool, view: Option<(SubStatus, string)>) {
    if route == ProvisionRoute && recovery then account != Terminated
    else
      var access := ResolveAccess(account, ready, route != ProvisionRoute, view);
      access.Ok? && (access.value.0 == Expired ==> route != TenantRoute)
  }

  lemma TerminatedAdmitsNothing(route: Route, recovery: bool, ready: bool, view: Option<(SubStatus, string)>)
    ensures !Admitted(route, recovery, Terminated, ready, view)
  {}

  /** Only provisioning recovery is served for an account that is not active. */
  lemma OnlyActiveAccountsAreServed(route: Route, recovery: bool, account: AccountStatus, ready: bool, view: Option<(SubStatus, string)>)
    requires Admitted(route, recovery, account, ready, view)
    ensures account == AccountActive || (route == ProvisionRoute && recovery && account != Terminated)
  {}

  /** The sweep's second statement is visible to access exactly where it closes an account that was
      still open: there the computed expiry alone would have left the account routes reachable. */
  lemma SweepClosesAccessIff(subs: seq<Sub>, tenant: string, account: AccountStatus, ready: bool, requireReady: bool, now: int)
    ensures var swept := SweepSubs(subs, now);
            var before := ResolveAccess(account, ready, requireReady, View(subs, tenant, now));
            var after := ResolveAccess(if Lapsed(swept, tenant) then AccountExpired else account,
                                       ready, requireReady, View(swept, tenant, now));
            after != before <==> Lapsed(swept, tenant) && account == AccountActive && !(requireReady && !ready)
  {
    PickAfterSweep(subs, tenant, now);
  }

  // ---- The provider webhook ----

  datatype EventKind = Pending | Halted | Cancel | Expire | Resumed | Activated | Charged | OtherKind

  datatype Delivery = Delivery(event: string, kind: EventKind, ref: string, start: int, end: int)

  datatype Checkout = Checkout(ref: string, tenant: string, plan: string)

  datatype Store = Store(
    accounts: map<string, AccountStatus>,
    subs: seq<Sub>,
    checkouts: seq<Checkout>,
    plans: map<string, int>,
    events: set<string>,
    nextId: int)

  /** What a webhook request holds after its reads and before its transaction. */
  datatype Prepared = Prepared(
    event: string, ref: string, tenant: string, plan: string, status: SubStatus, account: AccountStatus,
    starts: int, ends: Option<int>, limit: int)

  /** The newest subscription row with this reference; rows are kept in insertion order. */
  function SubOwner(subs: seq<Sub>, ref: string): Option<(string, string)> {
    if subs == [] then None
    else if SubOwner(subs[1..], ref).Some? then SubOwner(subs[1..], ref)
    else if subs[0].ref == Some(ref) then Some((subs[0].tenant, subs[0].plan))
    else None
  }

  function CheckoutOwner(checkouts: seq<Checkout>, ref: string): Option<(string, string)> {
    if checkouts == [] then None
    else if checkouts[|checkouts| - 1].ref == ref then Some((checkouts[|checkouts| - 1].tenant, checkouts[|checkouts| - 1].plan))
    else CheckoutOwner(checkouts[..|checkouts| - 1], ref)
  }

  function Owner(s: Store, ref: string): Option<(string, string)> {
    if SubOwner(s.subs, ref).Some? then SubOwner(s.subs, ref) else CheckoutOwner(s.checkouts, ref)
  }

  function Outcome(kind: EventKind): Option<(SubStatus, AccountStatus)> {
    match kind
    case Pending => Some((PastDue, AccountSuspended))
    case Halted => Some((Suspended, AccountSuspended))
    case Cancel => Some((Cancelled, AccountSuspended))
    case Expire => Some((Expired, AccountExpired))
    case OtherKind => None
    case _ => Some((Active, AccountActive))
  }

  /** The part of the webhook before its transaction; None when it answers without one. */
  function Prepare(s: Store, d: Delivery, now: int): Option<Prepared> {
    var owner := Owner(s, d.ref);
    if d.ref == "" || owner.None? || owner.value.0 !in s.accounts || s.accounts[owner.value.0] == Terminated
       || Outcome(d.kind).None? || owner.value.1 !in s.plans then None
    else Some(Prepared(d.event, d.ref, owner.value.0, owner.value.1, Outcome(d.kind).value.0, Outcome(d.kind).value.1,
                       if d.start > 0 then d.start else now, if d.end > 0 then Some(d.end) else None, s.plans[owner.value.1]))
  }

  function Renewed(s: Sub, p: Prepared): Sub {
    s.(status := p.status, startsAt := p.starts, endsAt := p.ends)
  }

  /** INSERT ... ON CONFLICT on the provider reference. */
  function Upsert(subs: seq<Sub>, p: Prepared, id: int): seq<Sub> {
    if subs == [] then [Sub(id, p.tenant, p.plan, p.status, p.starts, p.ends, Some(p.ref), p.limit)]
    else if subs[0].ref == Some(p.ref) then [Renewed(subs[0], p)] + subs[1..]
    else [subs[0]] + Upsert(subs[1..], p, id)
  }

  predicate DatesValid(p: Prepared) { p.ends.None? || p.ends.value >= p.starts }

  /** The webhook transaction. A recorded event, or dates the table refuses, roll it back. */
  function Commit(s: Store, p: Prepared): Store {
    if p.event in s.events || !DatesValid(p) then s
    else s.(events := s.events + {p.event},
            subs := Upsert(s.subs, p, s.nextId),
            accounts := if p.tenant in s.accounts then s.accounts[p.tenant := p.account] else s.accounts,
            nextId := s.nextId + 1)
  }

  /** One delivery, undisturbed and without a fault. */
  function Webhook(s: Store, d: Delivery, now: int): Store {
    if Prepare(s, d, now).Some? then Commit(s, Prepare(s, d, now).value) else s
  }

  // ---- Interleavings of deliveries, sweeps and terminations ----

  /** One committed change, in commit order. */
  datatype Entry = Applied(prepared: Prepared, id: int) | RowsSwept(now: int) | AccountsSwept | Closed(tenant: string)

  datatype World = World(store: Store, inflight: map<int, Prepared>, log: seq<Entry>)

  datatype Action =
    | Begin(request: int, delivery: Delivery, now: int)
    | Finish(request: int)
    | Fail(request: int)
    | ExpireSubs(now: int)
    | ExpireAccounts
    | Close(tenant: string)

  function Step(w: World, a: Action): World {
    match a
    case Begin(r, d, now) =>
      if r in w.inflight || Prepare(w.store, d, now).None? then w
      else w.(inflight := w.inflight[r := Prepare(w.store, d, now).value])
    case Finish(r) =>
      if r !in w.inflight then w
      else
        var p, s := w.inflight[r], Commit(w.store, w.inflight[r]);
        World(s, w.inflight - {r}, if s == w.store then w.log else w.log + [Applied(p, w.store.nextId)])
    case Fail(r) => w.(inflight := w.inflight - {r})
    case ExpireSubs(now) => w.(store := w.store.(subs := SweepSubs(w.store.subs, now)), log := w.log + [RowsSwept(now)])
    case ExpireAccounts =>
      w.(store := w.store.(accounts := SweepAccounts(w.store.accounts, w.store.subs)), log := w.log + [AccountsSwept])
    case Close(t) =>
      if t !in w.store.accounts then w
      else w.(store := w.store.(accounts := w.store.accounts[t := Terminated]), log := w.log + [Closed(t)])
  }

  function Run(w: World, actions: seq<Action>): World
    decreases actions
  {
    if actions == [] then w else Run(Step(w, actions[0]), actions[1..])
  }

  datatype Ledger = Ledger(accounts: map<string, AccountStatus>, subs: seq<Sub>)

  /** The reference: one entry's effect on subscriptions and accounts, with no event table at all. */
  function Effect(l: Ledger, e: Entry): Ledger {
    match e
    case Applied(p, id) =>
      Ledger(if p.tenant in l.accounts then l.accounts[p.tenant := p.account] else l.accounts, Upsert(l.subs, p, id))
    case RowsSwept(now) => l.(subs := SweepSubs(l.subs, now))
    case AccountsSwept => l.(accounts := SweepAccounts(l.accounts, l.subs))
    case Closed(t) => if t in l.accounts then l.(accounts := l.accounts[t := Terminated]) else l
  }

  function Replay(l: Ledger, log: seq<Entry>): Ledger {
    if log == [] then l else Effect(Replay(l, log[..|log| - 1]), log[|log| - 1])
  }

  function EventsOf(log: seq<Entry>): set<string> {
    set i | 0 <= i < |log| && log[i].Applied? :: log[i].prepared.event
  }

  /** Every event reference was new when it was applied. */
  ghost predicate AppliedOnce(log: seq<Entry>) {
    forall i, j :: 0 <= i < j < |log| && log[i].Applied? && log[j].Applied? ==> log[i].prepared.event != log[j].prepared.event
  }

  function LedgerOf(s: Store): Ledger { Ledger(s.accounts, s.subs) }

  ghost predicate Explains(start: Store, s: Store, log: seq<Entry>) {
    && LedgerOf(s) == Replay(LedgerOf(start), log)
    && s.events == start.events + EventsOf(log)
    && EventsOf(log) !! start.events
    && AppliedOnce(log)
  }

  lemma StepKeepsExplained(start: Store, w: World, a: Action)
    requires Explains(start, w.store, w.log)
    ensures Explains(start, Step(w, a).store, Step(w, a).log)
  {}

  lemma {:induction false} RunKeepsExplained(start: Store, w: World, actions: seq<Action>)
    requires Explains(start, w.store, w.log)
    ensures Explains(start, Run(w, actions).store, Run(w, actions).log)
    decreases actions
  {
    hide Explains, Step;
    if actions != [] {
      StepKeepsExplained(start, w, actions[0]);
      RunKeepsExplained(start, Step(w, actions[0]), actions[1..]);
    }
  }

  lemma NothingCommittedYet(start: Store)
    ensures Explains(start, start, [])
  {}

  /** Exactly once: from any store on, whatever deliveries, duplicates, failures, redeliveries and sweeps
      interleave and whatever is already in flight, subscriptions and accounts are what the committed
      events give when each distinct reference is applied once, in commit order. */
  lemma WebhookAppliesEachEventOnce(start: Store, inflight: map<int, Prepared>, actions: seq<Action>)
    ensures var w := Run(World(start, inflight, []), actions); Explains(start, w.store, w.log)
  {
    NothingCommittedYet(start);
    hide Explains, Run;
    RunKeepsExplained(start, World(start, inflight, []), actions);
  }

  /** After a committed delivery the account is open to its users exactly for the paying events, and
      the provider's row carries the delivered status and period. */
  lemma WebhookDecidesAccess(s: Store, d: Delivery, now: int, requireReady: bool, view: (SubStatus, string))
    requires Prepare(s, d, now).Some? && Commit(s, Prepare(s, d, now).value) != s
    ensures var p, after := Prepare(s, d, now).value, Commit(s, Prepare(s, d, now).value);
            && p.tenant in after.accounts
            && (ResolveAccess(after.accounts[p.tenant], true, requireReady, Some(view)).Ok?
                <==> d.kind in {Resumed, Activated, Charged})
            && exists i :: 0 <= i < |after.subs| && after.subs[i].ref == Some(d.ref) && after.subs[i].startsAt == p.starts
                           && after.subs[i].endsAt == p.ends
                           && (after.subs[i].status == Active <==> d.kind in {Resumed, Activated, Charged})
  {
    var p := Prepare(s, d, now).value;
    UpsertShape(s.subs, p, s.nextId);
  }

  // ---- When a terminated account stays terminated ----

  /** Upsert keeps every row in place; it rewrites the row of its reference or appends one. */
  lemma {:induction false} UpsertShape(subs: seq<Sub>, p: Prepared, id: int)
    ensures var u := Upsert(subs, p, id);
            && |subs| <= |u| <= |subs| + 1
            && (forall i :: 0 <= i < |subs| ==> u[i] == subs[i] || (subs[i].ref == Some(p.ref) && u[i] == Renewed(subs[i], p)))
            && (|u| > |subs| ==> u[|subs|].tenant == p.tenant && u[|subs|].ref == Some(p.ref)
                                 && (forall i :: 0 <= i < |subs| ==> subs[i].ref != Some(p.ref)))
            && (exists i :: 0 <= i < |u| && u[i].ref == Some(p.ref) && u[i].status == p.status
                            && u[i].startsAt == p.starts && u[i].endsAt == p.ends)
  {
    var u := Upsert(subs, p, id);
    if subs == [] || subs[0].ref == Some(p.ref) {
      assert u[0].ref == Some(p.ref);
    } else {
      UpsertShape(subs[1..], p, id);
      var v := Upsert(subs[1..], p, id);
      assert u == [subs[0]] + v;
      var i :| 0 <= i < |v| && v[i].ref == Some(p.ref) && v[i].status == p.status && v[i].startsAt == p.starts && v[i].endsAt == p.ends;
      assert u[i + 1] == v[i];
      forall i | 0 < i < |subs| ensures u[i] == v[i - 1] && subs[i] == subs[1..][i - 1] {}
    }
  }

  /** The unique index on the provider reference. */
  ghost predicate OneRowPerRef(subs: seq<Sub>) {
    forall i, j :: 0 <= i < j < |subs| && subs[i].ref.Some? ==> subs[i].ref != subs[j].ref
  }

  lemma {:induction false} SubOwnerIsTheRow(subs: seq<Sub>, ref: string)
    requires OneRowPerRef(subs)
    ensures SubOwner(subs, ref).Some? <==> exists i :: 0 <= i < |subs| && subs[i].ref == Some(ref)
    ensures forall i :: 0 <= i < |subs| && subs[i].ref == Some(ref) ==> SubOwner(subs, ref) == Some((subs[i].tenant, subs[i].plan))
  {
    if subs != [] {
      assert forall i :: 0 <= i < |subs[1..]| ==> subs[1..][i] == subs[i + 1];
      SubOwnerIsTheRow(subs[1..], ref);
      if i :| 0 <= i < |subs| && subs[i].ref == Some(ref) {
        if i > 0 { assert subs[1..][i - 1].ref == Some(ref); }
      }
    }
  }

  ghost predicate Consistent(w: World) {
    && OneRowPerRef(w.store.subs)
    && (forall r :: r in w.inflight ==> Owner(w.store, w.inflight[r].ref) == Some((w.inflight[r].tenant, w.inflight[r].plan))
                                        && w.inflight[r].account != Terminated)
  }

  lemma CommitKeepsOwners(s: Store, p: Prepared, ref: string)
    requires OneRowPerRef(s.subs) && Owner(s, p.ref) == Some((p.tenant, p.plan)) && Owner(s, ref).Some?
    ensures OneRowPerRef(Commit(s, p).subs) && Owner(Commit(s, p), ref) == Owner(s, ref)
  {
    if Commit(s, p) != s {
      UpsertShape(s.subs, p, s.nextId);
      var u := Upsert(s.subs, p, s.nextId);
      hide Upsert, CheckoutOwner;
      assert OneRowPerRef(u);
      SubOwnerIsTheRow(s.subs, ref);
      SubOwnerIsTheRow(u, ref);
      SubOwnerIsTheRow(s.subs, p.ref);
      hide SubOwner;
      if i :| 0 <= i < |s.subs| && s.subs[i].ref == Some(ref) {
        assert u[i].ref == Some(ref);
      } else if ref == p.ref && |u| > |s.subs| {
        assert u[|s.subs|].ref == Some(ref);
        NewRowPlan(s.subs, p, s.nextId);
      }
    }
  }

  lemma {:induction false} NewRowPlan(subs: seq<Sub>, p: Prepared, id: int)
    requires |Upsert(subs, p, id)| > |subs|
    ensures Upsert(subs, p, id)[|subs|].plan == p.plan
  {
    if subs != [] && subs[0].ref != Some(p.ref) { NewRowPlan(subs[1..], p, id); }
  }

  /** Some later sweep can overwrite the tenant's TERMINATED status: it holds a provider-backed
      subscription that is or will be expired, and nothing that stays live. */
  predicate Reawakenable(subs: seq<Sub>, tenant: string) {
    && (exists i :: 0 <= i < |subs| && subs[i].tenant == tenant && subs[i].ref.Some?
                    && (subs[i].status == Expired || (subs[i].status != PastDue && Live(subs[i]))))
    && (forall i :: 0 <= i < |subs| && subs[i].tenant == tenant && Live(subs[i]) ==> subs[i].status != PastDue && subs[i].endsAt.Some?)
  }

  function LastEnd(subs: seq<Sub>): int {
    if subs == [] then 0
    else if subs[0].endsAt.Some? then Max(subs[0].endsAt.value, LastEnd(subs[1..]))
    else LastEnd(subs[1..])
  }

  lemma {:induction false} LastEndBounds(subs: seq<Sub>)
    ensures forall i :: 0 <= i < |subs| && subs[i].endsAt.Some? ==> subs[i].endsAt.value <= LastEnd(subs)
  {
    if subs != [] {
      LastEndBounds(subs[1..]);
      assert forall i :: 0 < i < |subs| ==> subs[i] == subs[1..][i - 1];
    }
  }

  /** `Reawakenable` is exactly the possibility of a lapse at some time. */
  lemma ReawakenableIffLapsesSometime(subs: seq<Sub>, tenant: string)
    ensures Reawakenable(subs, tenant) <==> exists now :: Lapsed(SweepSubs(subs, now), tenant)
  {
    if Reawakenable(subs, tenant) {
      var now := LastEnd(subs) + 1;
      LastEndBounds(subs);
      var swept := SweepSubs(subs, now);
      var i :| 0 <= i < |subs| && subs[i].tenant == tenant && subs[i].ref.Some?
               && (subs[i].status == Expired || (subs[i].status != PastDue && Live(subs[i])));
      assert swept[i].status == Expired && swept[i].ref.Some? && swept[i].tenant == tenant;
      forall k | 0 <= k < |swept| && swept[k].tenant == tenant ensures !Live(swept[k]) {
        assert subs[k].tenant == tenant;
      }
      assert Lapsed(swept, tenant);
    }
    if now :| Lapsed(SweepSubs(subs, now), tenant) {
      var swept := SweepSubs(subs, now);
      var i :| 0 <= i < |swept| && swept[i].tenant == tenant && swept[i].status == Expired && swept[i].ref.Some?;
      assert subs[i].tenant == tenant && subs[i].ref.Some?;
      forall k | 0 <= k < |subs| && subs[k].tenant == tenant && Live(subs[k]) ensures subs[k].status != PastDue && subs[k].endsAt.Some? {
        assert !Live(swept[k]);
      }
    }
  }

  /** A request of this tenant is past its reads and would still commit. */
  ghost predicate CanStillCommit(w: World, tenant: string) {
    exists r :: r in w.inflight && w.inflight[r].tenant == tenant && w.inflight[r].event !in w.store.events && DatesValid(w.inflight[r])
  }

  ghost predicate TerminatedIn(w: World, tenant: string) {
    tenant in w.store.accounts && w.store.accounts[tenant] == Terminated
  }

  ghost predicate StaysTerminated(w: World, tenant: string) {
    TerminatedIn(w, tenant) && !Reawakenable(w.store.subs, tenant) && !CanStillCommit(w, tenant)
  }

  lemma SweepKeepsAsleep(subs: seq<Sub>, now: int, tenant: string)
    requires !Reawakenable(subs, tenant)
    ensures !Reawakenable(SweepSubs(subs, now), tenant) && !Lapsed(SweepSubs(subs, now), tenant)
  {
    ReawakenableIffLapsesSometime(subs, tenant);
    var swept := SweepSubs(subs, now);
    if Reawakenable(swept, tenant) {
      var i :| 0 <= i < |swept| && swept[i].tenant == tenant && swept[i].ref.Some?
               && (swept[i].status == Expired || (swept[i].status != PastDue && Live(swept[i])));
      assert subs[i].tenant == tenant && subs[i].ref.Some?;
      forall k | 0 <= k < |subs| && subs[k].tenant == tenant && Live(subs[k]) ensures subs[k].status != PastDue && subs[k].endsAt.Some? {
        assert swept[k].tenant == tenant;
      }
    }
  }

  lemma AsleepNeverLapsed(subs: seq<Sub>, tenant: string)
    requires !Reawakenable(subs, tenant)
    ensures !Lapsed(subs, tenant)
  {}

  lemma ForeignUpsertKeepsAsleep(s: Store, p: Prepared, tenant: string)
    requires OneRowPerRef(s.subs) && Owner(s, p.ref) == Some((p.tenant, p.plan)) && p.tenant != tenant
    requires !Reawakenable(s.subs, tenant)
    ensures !Reawakenable(Upsert(s.subs, p, s.nextId), tenant)
  {
    var u := Upsert(s.subs, p, s.nextId);
    UpsertShape(s.subs, p, s.nextId);
    SubOwnerIsTheRow(s.subs, p.ref);
    hide Upsert, SubOwner, CheckoutOwner;
    assert forall i :: 0 <= i < |u| && u[i].tenant == tenant ==> i < |s.subs| && u[i] == s.subs[i];
    assert forall i :: 0 <= i < |s.subs| && s.subs[i].tenant == tenant ==> u[i] == s.subs[i];
  }

  lemma StepKeepsConsistent(w: World, a: Action)
    requires Consistent(w)
    ensures Consistent(Step(w, a))
  {
    match a
    case Begin(r, d, now) => { hide SubOwner, CheckoutOwner; }
    case Finish(r) =>
      if r in w.inflight {
        hide Commit;
        forall q | q in w.inflight { CommitKeepsOwners(w.store, w.inflight[r], w.inflight[q].ref); }
      }
    case ExpireSubs(now) => forall r | r in w.inflight { SweepKeepsOwner(w.store, now, w.inflight[r].ref); }
    case _ =>
  }

  lemma SweepKeepsOwner(s: Store, now: int, ref: string)
    ensures SubOwner(SweepSubs(s.subs, now), ref) == SubOwner(s.subs, ref)
  {
    SweepKeepsSubOwner(s.subs, now, ref);
  }

  lemma {:induction false} SweepKeepsSubOwner(subs: seq<Sub>, now: int, ref: string)
    ensures SubOwner(SweepSubs(subs, now), ref) == SubOwner(subs, ref)
  {
    if subs != [] {
      SweepKeepsSubOwner(subs[1..], now, ref);
      assert SweepSubs(subs, now)[1..] == SweepSubs(subs[1..], now);
    }
  }

  lemma StepKeepsTerminated(w: World, a: Action, tenant: string)
    requires Consistent(w) && StaysTerminated(w, tenant)
    ensures StaysTerminated(Step(w, a), tenant)
  {
    match a
    case Begin(r, d, now) => { hide Owner, Reawakenable; }
    case Finish(r) =>
      if r in w.inflight && Commit(w.store, w.inflight[r]) != w.store {
        var p := w.inflight[r];
        assert p.tenant != tenant;
        ForeignUpsertKeepsAsleep(w.store, p, tenant);
        hide Upsert, Owner, Reawakenable;
      }
    case ExpireSubs(now) => { SweepKeepsAsleep(w.store.subs, now, tenant); hide SweepSubs, Reawakenable, Lapsed, Owner; }
    case ExpireAccounts => { AsleepNeverLapsed(w.store.subs, tenant); hide Reawakenable, Lapsed, Owner; }
    case _ =>
  }

  lemma {:induction false} RunKeepsTerminated(w: World, actions: seq<Action>, tenant: string)
    requires Consistent(w) && StaysTerminated(w, tenant)
    ensures StaysTerminated(Run(w, actions), tenant)
    decreases actions
  {
    hide Consistent, StaysTerminated, Step;
    if actions != [] {
      StepKeepsConsistent(w, actions[0]);
      StepKeepsTerminated(w, actions[0], tenant);
      RunKeepsTerminated(Step(w, actions[0]), actions[1..], tenant);
    }
  }

  lemma RunOne(w: World, a: Action)
    ensures Run(w, [a]) == Step(w, a)
  {}

  lemma RunTwo(w: World, a: Action, b: Action)
    ensures Run(w, [a, b]) == Step(Step(w, a), b)
  {
    hide Step;
    assert [a, b][1..] == [b];
    RunOne(Step(w, a), b);
  }

  /** A terminated account is terminated in every continuation exactly when no sweep can ever find it
      lapsed and no delivery of its own is already past its reads with a commit still ahead. */
  lemma TerminationIsFinalIff(w: World, tenant: string)
    requires Consistent(w) && TerminatedIn(w, tenant)
    ensures (forall actions :: TerminatedIn(Run(w, actions), tenant))
            <==> !Reawakenable(w.store.subs, tenant) && !CanStillCommit(w, tenant)
  {
    if !Reawakenable(w.store.subs, tenant) && !CanStillCommit(w, tenant) {
      forall actions ensures TerminatedIn(Run(w, actions), tenant) { RunKeepsTerminated(w, actions, tenant); }
    } else if CanStillCommit(w, tenant) {
      var r :| r in w.inflight && w.inflight[r].tenant == tenant && w.inflight[r].event !in w.store.events && DatesValid(w.inflight[r]);
      RunOne(w, Finish(r));
      assert !TerminatedIn(Step(w, Finish(r)), tenant);
    } else {
      ReawakenableIffLapsesSometime(w.store.subs, tenant);
      var now :| Lapsed(SweepSubs(w.store.subs, now), tenant);
      RunTwo(w, ExpireSubs(now), ExpireAccounts);
      assert !TerminatedIn(Step(Step(w, ExpireSubs(now)), ExpireAccounts), tenant);
    }
  }

  /** Deliveries that start while the tenant is terminated stop before their transaction. */
  lemma TerminatedTenantsIgnoreDeliveries(w: World, r: int, d: Delivery, now: int)
    requires Owner(w.store, d.ref).Some? && TerminatedIn(w, Owner(w.store, d.ref).value.0)
    ensures Step(w, Begin(r, d, now)) == w
  {}
}

/** The webhook handler and the sweep as the code runs them, over the control tables. */
module SubscriptionStore {
  import opened Base
  import opened Subscriptions

  datatype Fault = NoFault | BeforeCommit

  datatype Reply = Processed | AlreadyProcessed | Ignored | NotFound | Failed

  class ControlTables {
    var accounts: map<string, AccountStatus>
    var subs: seq<Sub>
    var checkouts: seq<Checkout>
    var plans: map<string, int>
    var events: set<string>
    var nextId: int

    function Tables(): Store
      reads this
    {
      Store(accounts, subs, checkouts, plans, events, nextId)
    }

    /** The switch on the event name. */
    method Meaning(kind: EventKind) returns (outcome: Option<(SubStatus, AccountStatus)>)
      ensures outcome == Outcome(kind)
    {
      var status, account := Active, AccountActive;
      match kind {
        case Pending => status, account := PastDue, AccountSuspended;
        case Halted => status, account := Suspended, AccountSuspended;
        case Cancel => status, account := Cancelled, AccountSuspended;
        case Expire => status, account := Expired, AccountExpired;
        case Resumed =>
        case Activated =>
        case Charged =>
        case OtherKind => return None;
      }
      outcome := Some((status, account));
    }

    /** The transaction; a recorded event, refused dates or a fault roll it back. */
    method CommitDelivery(p: Prepared, fault: Fault) returns (reply: Reply)
      requires p.tenant in accounts
      modifies this
      ensures Tables() == if fault == NoFault then Commit(old(Tables()), p) else old(Tables())
      ensures reply == Processed <==> p.event in events - old(events)
      ensures reply == AlreadyProcessed ==> p.event in old(events)
    {
      hide Upsert;
      if p.event in events { return AlreadyProcessed; }
      if fault == BeforeCommit || !DatesValid(p) { return Failed; }
      events := events + {p.event};
      subs := Upsert(subs, p, nextId);
      nextId := nextId + 1;
      accounts := accounts[p.tenant := p.account];
      reply := Processed;
    }

    /** One delivery, start to end, with the transaction rolled back when a fault is injected. */
    method RazorpaySubscriptionWebhook(d: Delivery, now: int, fault: Fault) returns (reply: Reply)
      modifies this
      ensures Tables() == if fault == NoFault then Webhook(old(Tables()), d, now) else old(Tables())
      ensures reply == Processed <==> d.event in events - old(events)
      ensures reply == AlreadyProcessed ==> d.event in old(events)
    {
      hide SubOwner, CheckoutOwner, Commit, Outcome;
      if d.ref == "" { return Ignored; }
      var owner := SubOwner(subs, d.ref);
      if owner.None? {
        owner := CheckoutOwner(checkouts, d.ref);
        if owner.None? { return NotFound; }
      }
      var (tenant, plan) := owner.value;
      if tenant !in accounts { return Failed; }
      if accounts[tenant] == Terminated { return Ignored; }
      var outcome := Meaning(d.kind);
      if outcome.None? { return Ignored; }
      var starts, ends := now, None;
      if d.start > 0 { starts := d.start; }
      if d.end > 0 { ends := Some(d.end); }
      if plan !in plans { return Failed; }
      var p := Prepared(d.event, d.ref, tenant, plan, outcome.value.0, outcome.value.1, starts, ends, plans[plan]);
      reply := CommitDelivery(p, fault);
    }

    /** The two UPDATE statements. */
    method ExpireDueSubscriptions(now: int)
      modifies this`subs, this`accounts
      ensures subs == SweepSubs(old(subs), now) && accounts == SweepAccounts(old(accounts), subs)
    {
      hide Lapsed;
      var rows := subs;
      for i := 0 to |rows|
        invariant |rows| == |subs|
        invariant forall k :: 0 <= k < i ==> rows[k] == SweepSub(subs[k], now)
        invariant forall k :: i <= k < |rows| ==> rows[k] == subs[k]
      {
        if (rows[i].status == Trial || rows[i].status == Active) && rows[i].endsAt.Some? && rows[i].endsAt.value < now {
          rows := rows[i := rows[i].(status := Expired)];
        }
      }
      assert rows == SweepSubs(subs, now);
      subs := rows;
      accounts := map t | t in accounts :: if Lapsed(subs, t) then AccountExpired else accounts[t];
    }
  }
}
