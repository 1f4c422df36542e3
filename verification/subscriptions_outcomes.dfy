/** What a delivery and a sweep leave in the tables, and who is let in, told from the rows alone. */
module SubscriptionOutcomes {
  import opened Base
  import opened Subscriptions
  import opened Retirement

  // ---- A committed delivery ----

  /** What an event says of the subscription and of the account. */
  ghost predicate Says(kind: EventKind, status: SubStatus, account: AccountStatus) {
    && kind != OtherKind
    && (kind == Pending ==> status == PastDue && account == AccountSuspended)
    && (kind == Halted ==> status == SubStatus.Suspended && account == AccountSuspended)
    && (kind == Cancel ==> status == Cancelled && account == AccountSuspended)
    && (kind == Expire ==> status == Expired && account == AccountExpired)
    && (kind == Resumed || kind == Activated || kind == Charged ==> status == Active && account == AccountActive)
  }

  /** The row carries the delivery's reference and period; the period starts now where none is delivered. */
  predicate Carries(row: Sub, d: Delivery, now: int) {
    && row.ref == Some(d.ref)
    && (if d.start > 0 then row.startsAt == d.start else row.startsAt == now)
    && (if d.end > 0 then row.endsAt == Some(d.end) else row.endsAt == None)
  }

  /** Row `i` of the subscriptions has this reference. */
  predicate RefAt(s: Store, ref: string, i: int) { 0 <= i < |s.subs| && s.subs[i].ref == Some(ref) }

  /** The newest checkout with this reference. */
  predicate NewestCheckout(s: Store, ref: string, i: int) {
    0 <= i < |s.checkouts| && s.checkouts[i].ref == ref && forall j :: i < j < |s.checkouts| ==> s.checkouts[j].ref != ref
  }

  /** Whose the reference is: the subscription row's tenant and plan, or the newest checkout's. */
  ghost predicate Owns(s: Store, ref: string, tenant: string, plan: string) {
    || (exists i :: RefAt(s, ref, i) && s.subs[i].tenant == tenant && s.subs[i].plan == plan)
    || ((forall i :: !RefAt(s, ref, i))
        && exists i :: NewestCheckout(s, ref, i) && s.checkouts[i].tenant == tenant && s.checkouts[i].plan == plan)
  }

  lemma {:induction false} CheckoutIsNewest(s: Store, checkouts: seq<Checkout>, ref: string)
    requires checkouts <= s.checkouts && forall j :: |checkouts| <= j < |s.checkouts| ==> s.checkouts[j].ref != ref
    ensures CheckoutOwner(checkouts, ref).None? <==> forall i :: !NewestCheckout(s, ref, i)
    ensures forall i :: NewestCheckout(s, ref, i) ==> CheckoutOwner(checkouts, ref) == Some((s.checkouts[i].tenant, s.checkouts[i].plan))
  {
    if checkouts != [] {
      var n := |checkouts| - 1;
      assert checkouts[n] == s.checkouts[n];
      if checkouts[n].ref == ref {
        assert NewestCheckout(s, ref, n);
        assert forall i :: NewestCheckout(s, ref, i) ==> i == n;
      } else {
        CheckoutIsNewest(s, checkouts[..n], ref);
      }
    }
  }

  lemma OwnerOwns(s: Store, ref: string)
    requires OneRowPerRef(s.subs)
    ensures Owner(s, ref).Some? ==> Owns(s, ref, Owner(s, ref).value.0, Owner(s, ref).value.1)
    ensures forall tenant, plan :: Owns(s, ref, tenant, plan) ==> Owner(s, ref) == Some((tenant, plan))
  {
    SubOwnerIsTheRow(s.subs, ref);
    CheckoutIsNewest(s, s.checkouts, ref);
    hide SubOwner, CheckoutOwner, OneRowPerRef;
    if SubOwner(s.subs, ref).Some? {
      var i :| 0 <= i < |s.subs| && s.subs[i].ref == Some(ref);
      assert RefAt(s, ref, i);
    }
  }

  /** A delivery is applied exactly when its reference belongs to an open account of a known plan, it says
      something, it was not applied before, and its period does not end before it starts. */
  lemma DeliveryIsAppliedIff(s: Store, d: Delivery, now: int)
    requires OneRowPerRef(s.subs)
    ensures Webhook(s, d, now) != s <==>
              && d.ref != "" && d.kind != OtherKind && d.event !in s.events
              && (d.end > 0 ==> d.end >= if d.start > 0 then d.start else now)
              && exists tenant, plan ::
                   Owns(s, d.ref, tenant, plan) && tenant in s.accounts && s.accounts[tenant] != Terminated && plan in s.plans
  {
    OwnerOwns(s, d.ref);
    hide Owner, Owns, OneRowPerRef, Upsert;
    if Webhook(s, d, now) != s {
      assert Owns(s, d.ref, Owner(s, d.ref).value.0, Owner(s, d.ref).value.1);
    }
  }

  /** The upsert rewrites the status and period of the row with its reference ... */
  lemma {:induction false} UpsertRewrites(subs: seq<Sub>, p: Prepared, id: int, i: int)
    requires OneRowPerRef(subs) && 0 <= i < |subs| && subs[i].ref == Some(p.ref)
    ensures Upsert(subs, p, id)
            == subs[i := Sub(subs[i].id, subs[i].tenant, subs[i].plan, p.status, p.starts, p.ends, subs[i].ref, subs[i].userLimit)]
  {
    assert subs == [subs[0]] + subs[1..];
    if i > 0 {
      assert subs[0].ref != Some(p.ref);
      assert forall k :: 0 <= k < |subs[1..]| ==> subs[1..][k] == subs[k + 1];
      UpsertRewrites(subs[1..], p, id, i - 1);
    }
  }

  /** ... or appends one. */
  lemma {:induction false} UpsertAppends(subs: seq<Sub>, p: Prepared, id: int)
    requires forall i :: 0 <= i < |subs| ==> subs[i].ref != Some(p.ref)
    ensures Upsert(subs, p, id) == subs + [Sub(id, p.tenant, p.plan, p.status, p.starts, p.ends, Some(p.ref), p.limit)]
  {
    if subs != [] {
      UpsertAppends(subs[1..], p, id);
      assert subs == [subs[0]] + subs[1..];
    }
  }

  /** The tables after an applied delivery: the event is recorded, the account of the reference's owner has the
      status the event says, and so has the subscription row, with the delivered period; a row that was there
      keeps its id, plan and user limit, a new one takes those of the plan; nothing else changes. */
  ghost predicate Applied(s: Store, t: Store, d: Delivery, now: int, tenant: string, plan: string, i: int) {
    && Owns(s, d.ref, tenant, plan) && tenant in s.accounts && tenant in t.accounts && plan in s.plans
    && t.events == s.events + {d.event} && t.checkouts == s.checkouts && t.plans == s.plans && t.nextId == s.nextId + 1
    && t.accounts.Keys == s.accounts.Keys && (forall k :: k in s.accounts && k != tenant ==> t.accounts[k] == s.accounts[k])
    && 0 <= i < |t.subs| && Carries(t.subs[i], d, now) && t.subs[i].tenant == tenant && t.subs[i].plan == plan
    && Says(d.kind, t.subs[i].status, t.accounts[tenant])
    && (if i < |s.subs| then t.subs == s.subs[i := t.subs[i]] && t.subs[i].id == s.subs[i].id && t.subs[i].userLimit == s.subs[i].userLimit
                             && s.subs[i].ref == Some(d.ref)
        else (forall j :: !RefAt(s, d.ref, j)) && t.subs == s.subs + [t.subs[i]] && t.subs[i].id == s.nextId && t.subs[i].userLimit == s.plans[plan])
  }

  lemma KnownDelivery(s: Store, d: Delivery, now: int, i: int)
    requires OneRowPerRef(s.subs) && Webhook(s, d, now) != s && RefAt(s, d.ref, i)
    ensures Applied(s, Webhook(s, d, now), d, now, s.subs[i].tenant, s.subs[i].plan, i)
  {
    var p := Prepare(s, d, now).value;
    OwnerOwns(s, d.ref);
    assert Owns(s, d.ref, s.subs[i].tenant, s.subs[i].plan);
    hide Owner, Owns, Upsert;
    UpsertRewrites(s.subs, p, s.nextId, i);
    hide OneRowPerRef;
  }

  lemma NewDelivery(s: Store, d: Delivery, now: int)
    requires OneRowPerRef(s.subs) && Webhook(s, d, now) != s && forall i :: !RefAt(s, d.ref, i)
    ensures exists tenant, plan :: Applied(s, Webhook(s, d, now), d, now, tenant, plan, |s.subs|)
  {
    var p := Prepare(s, d, now).value;
    OwnerOwns(s, d.ref);
    hide Owner, Owns, Upsert, OneRowPerRef;
    forall i | 0 <= i < |s.subs| ensures s.subs[i].ref != Some(p.ref) { assert !RefAt(s, d.ref, i); }
    UpsertAppends(s.subs, p, s.nextId);
    assert Applied(s, Webhook(s, d, now), d, now, p.tenant, p.plan, |s.subs|);
  }

  lemma DeliveryOutcome(s: Store, d: Delivery, now: int)
    requires OneRowPerRef(s.subs) && Webhook(s, d, now) != s
    ensures exists tenant, plan, i :: Applied(s, Webhook(s, d, now), d, now, tenant, plan, i)
  {
    if i :| RefAt(s, d.ref, i) {
      KnownDelivery(s, d, now, i);
    } else {
      NewDelivery(s, d, now);
    }
    hide Webhook, Applied;
  }

  /** A tenant whose newest subscription was last cancelled by the provider is retired as discontinued. */
  lemma CancelledIsDiscontinued(s: Store, d: Delivery, now: int, newest: Sub, account: AccountStatus, trialExpires: Option<int>, at: int)
    requires OneRowPerRef(s.subs) && Webhook(s, d, now) != s && d.kind == Cancel
    requires newest in Webhook(s, d, now).subs && newest.ref == Some(d.ref)
    ensures RetirementStatus(account, Some(newest), trialExpires, at) == Discontinued
  {
    DeliveryOutcome(s, d, now);
    var t := Webhook(s, d, now);
    var tenant, plan, i :| Applied(s, t, d, now, tenant, plan, i);
    hide Webhook;
    OnlyRowOfRef(s, t, d, now, tenant, plan, i);
    hide Applied, OneRowPerRef;
    assert t.subs[i].status == Cancelled;
  }

  lemma OnlyRowOfRef(s: Store, t: Store, d: Delivery, now: int, tenant: string, plan: string, i: int)
    requires OneRowPerRef(s.subs) && Applied(s, t, d, now, tenant, plan, i)
    ensures forall j :: 0 <= j < |t.subs| && t.subs[j].ref == Some(d.ref) ==> j == i
    ensures 0 <= i < |t.subs| && (d.kind == Cancel ==> t.subs[i].status == Cancelled)
  {
    hide Owns;
    forall j | 0 <= j < |t.subs| && t.subs[j].ref == Some(d.ref) ensures j == i {
      assert j != i ==> j < |s.subs| && t.subs[j] == s.subs[j] && RefAt(s, d.ref, j);
    }
  }

  // ---- A sweep ----

  /** The first statement expires exactly the trials and active subscriptions whose end has passed. */
  lemma RowSweepOutcome(subs: seq<Sub>, now: int, i: int)
    requires 0 <= i < |subs|
    ensures SweepSubs(subs, now)[i]
            == if subs[i].status in {Trial, Active} && subs[i].endsAt.Some? && subs[i].endsAt.value < now
               then Sub(subs[i].id, subs[i].tenant, subs[i].plan, Expired, subs[i].startsAt, subs[i].endsAt, subs[i].ref, subs[i].userLimit)
               else subs[i]
  {}

  /** The second closes exactly the accounts with an expired provider-backed subscription and no trial, active
      or overdue one. */
  lemma AccountSweepOutcome(accounts: map<string, AccountStatus>, subs: seq<Sub>, t: string)
    requires t in accounts
    ensures var after := SweepAccounts(accounts, subs);
            && after.Keys == accounts.Keys
            && after[t] == if (exists i :: 0 <= i < |subs| && subs[i].tenant == t && subs[i].status == Expired && subs[i].ref.Some?)
                              && (forall i :: 0 <= i < |subs| && subs[i].tenant == t ==> subs[i].status !in {Trial, Active, PastDue})
                           then AccountExpired else accounts[t]
  {}

  // ---- Who is let in ----

  /** The tenant's newest row that is a trial, active, overdue or expired. */
  predicate NewestShown(subs: seq<Sub>, tenant: string, m: Sub) {
    && m in subs && m.tenant == tenant && m.status in {Trial, Active, PastDue, Expired}
    && forall s :: s in subs && s.tenant == tenant && s.status in {Trial, Active, PastDue, Expired} && s != m ==>
                     m.startsAt > s.startsAt || (m.startsAt == s.startsAt && m.id > s.id)
  }

  lemma ShownRow(subs: seq<Sub>, tenant: string, m: Sub, now: int)
    requires NewestShown(subs, tenant, m)
    ensures View(subs, tenant, now)
            == Some((if m.status in {Trial, Active} && m.endsAt.Some? && m.endsAt.value < now then Expired else m.status, m.plan))
  {
    PickIsNewest(subs, Visible(tenant));
    var n := Pick(subs, Visible(tenant));
    assert Visible(tenant)(m);
    assert n.Some? && n.value in subs && Visible(tenant)(n.value);
    hide Pick;
    assert !Newer(m, n.value);
  }

  /** Without such a row nothing is shown, and nobody is let in beyond recovery. */
  lemma NothingShown(subs: seq<Sub>, tenant: string, now: int)
    requires forall s :: s in subs && s.tenant == tenant ==> s.status in {Suspended, Cancelled}
    ensures View(subs, tenant, now).None?
  {
    PickIsNewest(subs, Visible(tenant));
    hide Pick;
  }

  /** Tenant routes are for active accounts of provisioned tenants with a subscription that has not expired;
      account routes also for expired ones; provisioning does not ask whether the tenant is ready, and recovery
      only whether it still exists. */
  lemma AdmissionIff(route: Route, recovery: bool, account: AccountStatus, ready: bool, view: Option<(SubStatus, string)>)
    ensures Admitted(TenantRoute, recovery, account, ready, view) <==>
              ready && account == AccountActive && view.Some? && view.value.0 != Expired
    ensures Admitted(AccountRoute, recovery, account, ready, view) <==> ready && account == AccountActive && view.Some?
    ensures Admitted(ProvisionRoute, false, account, ready, view) <==> account == AccountActive && view.Some?
    ensures Admitted(ProvisionRoute, true, account, ready, view) <==> account != Terminated
  {}

  /** Why a request is refused: provisioning first, then the account, then the subscription. */
  lemma RefusalReasons(account: AccountStatus, ready: bool, requireReady: bool, view: Option<(SubStatus, string)>)
    ensures var r := ResolveAccess(account, ready, requireReady, view);
            && (r == Err(NotReady) <==> requireReady && !ready)
            && (r == Err(AccountClosed) <==> (requireReady ==> ready) && account != AccountActive)
            && (r == Err(NoSubscription) <==> (requireReady ==> ready) && account == AccountActive && view.None?)
            && (r.Ok? ==> view == Some(r.value))
  {}

  /** Once its newest trial or subscription has run out, a tenant is refused on its own routes and still served
      on the account routes, whether or not a sweep has marked the row. */
  lemma ExpiryClosesTenantRoutes(subs: seq<Sub>, tenant: string, m: Sub, times: seq<int>, now: int)
    requires NewestShown(subs, tenant, m) && m.status in {Trial, Active} && m.endsAt.Some? && m.endsAt.value < now
    requires forall k :: 0 <= k < |times| ==> times[k] <= now
    ensures var view := View(SweepAll(subs, times), tenant, now);
            && (forall account, ready :: !Admitted(TenantRoute, false, account, ready, view))
            && Admitted(AccountRoute, false, AccountActive, true, view)
  {
    ComputedExpiryEqualsSweptExpiry(subs, times, tenant, now);
    ShownRow(subs, tenant, m, now);
    hide View, SweepAll;
  }

  // ---- The steps of a run ----

  /** A delivery that nobody overtakes is the webhook, and leaves nothing in flight. */
  lemma UndisturbedDelivery(w: World, r: int, d: Delivery, now: int)
    requires r !in w.inflight
    ensures var x := Run(w, [Begin(r, d, now), Finish(r)]); x.store == Webhook(w.store, d, now) && x.inflight == w.inflight
    ensures Run(w, [Begin(r, d, now), Fail(r)]) == w
  {
    hide Prepare, Commit;
    if Prepare(w.store, d, now).Some? {
      var p := Prepare(w.store, d, now).value;
      assert w.inflight[r := p] - {r} == w.inflight;
    } else {
      assert w.inflight - {r} == w.inflight;
    }
    RunTwo(w, Begin(r, d, now), Finish(r));
    RunTwo(w, Begin(r, d, now), Fail(r));
    hide Run;
  }

  /** A deletion closes its tenant's account, and a sweep is its two statements. */
  lemma OtherSteps(w: World, t: string, now: int)
    ensures t in w.store.accounts ==> Step(w, Close(t)).store == w.store.(accounts := w.store.accounts[t := Terminated])
    ensures t !in w.store.accounts ==> Step(w, Close(t)) == w
    ensures Step(Step(w, ExpireSubs(now)), ExpireAccounts).store
            == w.store.(subs := SweepSubs(w.store.subs, now), accounts := SweepAccounts(w.store.accounts, SweepSubs(w.store.subs, now)))
  {
    hide SweepSubs, SweepAccounts;
  }

  /** Sweeps follow one another. */
  lemma {:induction false} SweptInTurn(subs: seq<Sub>, times: seq<int>, now: int)
    ensures SweepAll(subs, times + [now]) == SweepSubs(SweepAll(subs, times), now)
    decreases times
  {
    hide SweepSubs;
    if times == [] {
      assert SweepAll(SweepSubs(subs, now), []) == SweepSubs(subs, now);
    } else {
      assert (times + [now])[1..] == times[1..] + [now];
      SweptInTurn(SweepSubs(subs, times[0]), times[1..], now);
    }
  }
}
