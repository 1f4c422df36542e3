/** The start of a tenant: its database, its schema, its first administrator and the administrator's
    platform account, through any number of attempts that fail anywhere, and with the users the
    administrator manages once he can sign in. */
module Provisioning {
  import opened Base
  import opened Text

  datatype Status = NotStarted | InProgress | Ready | Failed

  /** What the verified pending registration says; it does not change any more. */
  datatype Registrant = Registrant(name: string, email: string, password: string)

  datatype LocalUser = LocalUser(id: int, name: string, email: string, password: string, role: string)

  /** A tenant database: how many schema definitions it records, its users, its id sequence. */
  datatype TenantDb = TenantDb(applied: nat, users: seq<LocalUser>, nextId: int)

  datatype PlatformAccount = PlatformAccount(tenant: string, userId: int, email: string, role: string)

  /** How far an attempt has come. `Failing` is a registration whose provisioning returned an
      error and which has yet to write FAILED itself, outside the lock. */
  datatype Stage =
    | Queued | Holding | Marked | HasDb | SchemaDone | Seeded(id: int) | Synced(id: int)
    | Provisioned(id: int) | AccountDone | Failing

  /** `registering` is the registration's own attempt; `seeds` tells whether it carries the
      administrator, as registration and recovery do and a signed-in retry does not. */
  datatype Attempt = Attempt(registering: bool, seeds: bool, stage: Stage)

  datatype World = World(
    tenant: string,
    total: nat,
    who: Registrant,
    status: Status,
    db: Option<TenantDb>,
    accounts: set<PlatformAccount>,
    pending: bool,
    holder: Option<int>,
    attempts: map<int, Attempt>)

  datatype Action =
    | Begin(p: int, registering: bool, seeds: bool)
    | Acquire(p: int)
    | Mark(p: int)
    | EnsureDb(p: int)
    | ApplyNext(p: int)
    | PutAdmin(p: int)
    | SyncIds(p: int)
    | MarkReady(p: int)
    | PutAccount(p: int)
    | ClearPending(p: int)
    | Fault(p: int, marked: bool)
    | Crash(p: int)
    | LateMark(p: int)
    | Elsewhere(accounts: set<PlatformAccount>)
    // User management: the single statements of its requests and of their compensations.
    | AddUser(name: string, email: string, password: string, role: string)
    | EditUser(at: nat, name: string, email: string, role: string)
    | DropUser(at: nat)
    | RestoreUser(row: LocalUser)
    | PutUserAccount(userId: int, email: string, role: string)
    | DropUserAccount(userId: int)

  const ADMIN := "admin"

  const OPERATIONAL: set<string> := {"manager", "recruiter", "team_leader"}

  // ---- Single statements ----

  /** INSERT INTO users ... ON CONFLICT (email) DO UPDATE; a conflict still uses up an id. */
  function PutUser(db: TenantDb, who: Registrant): TenantDb {
    db.(users := PutRow(db.users, db.nextId, who), nextId := db.nextId + 1)
  }

  function AdminRow(who: Registrant, id: int): LocalUser { LocalUser(id, who.name, who.email, who.password, ADMIN) }

  function PutRow(users: seq<LocalUser>, id: int, who: Registrant): seq<LocalUser> {
    if users == [] then [AdminRow(who, id)]
    else if users[0].email == who.email then [AdminRow(who, users[0].id)] + users[1..]
    else [users[0]] + PutRow(users[1..], id, who)
  }

  /** INSERT INTO users; a taken id or address leaves the table as it was. */
  function InsertUser(db: TenantDb, row: LocalUser): TenantDb {
    if exists i :: 0 <= i < |db.users| && (db.users[i].id == row.id || db.users[i].email == row.email) then db
    else db.(users := db.users + [row])
  }

  /** UPDATE users SET username, email, role WHERE id; a taken address leaves the table as it was. */
  function ChangeUser(db: TenantDb, at: nat, name: string, email: string, role: string): TenantDb
    requires at < |db.users|
  {
    if exists i :: 0 <= i < |db.users| && i != at && db.users[i].email == email then db
    else db.(users := db.users[at := db.users[at].(name := name, email := email, role := role)])
  }

  function RemoveUser(db: TenantDb, at: nat): TenantDb
    requires at < |db.users|
  {
    db.(users := db.users[..at] + db.users[at + 1..])
  }

  /** The id that RETURNING gives. */
  function IdOf(users: seq<LocalUser>, email: string): int {
    if users == [] then 0 else if users[0].email == email then users[0].id else IdOf(users[1..], email)
  }

  function MaxId(users: seq<LocalUser>): int {
    if users == [] then 1 else Max(users[0].id, MaxId(users[1..]))
  }

  /** Another account holds the address, whatever its case. */
  predicate Taken(accounts: set<PlatformAccount>, row: PlatformAccount) {
    exists a :: a in accounts && !(a.tenant == row.tenant && a.userId == row.userId) && ToLower(a.email) == ToLower(row.email)
  }

  /** INSERT ... ON CONFLICT (tenant_id, user_id) DO UPDATE */
  function UpsertAccount(accounts: set<PlatformAccount>, row: PlatformAccount): set<PlatformAccount> {
    (set a | a in accounts && !(a.tenant == row.tenant && a.userId == row.userId)) + {row}
  }

  // ---- Steps ----

  function At(w: World, p: int): Stage { if p in w.attempts then w.attempts[p].stage else Failing }

  function Move(w: World, p: int, stage: Stage): World
    requires p in w.attempts
  {
    w.(attempts := w.attempts[p := w.attempts[p].(stage := stage)])
  }

  function Leave(w: World, p: int): World {
    w.(attempts := w.attempts - {p}, holder := if w.holder == Some(p) then None else w.holder)
  }

  /** The stages between taking the lock and returning. */
  predicate Inside(stage: Stage) {
    stage in {Holding, Marked, HasDb, SchemaDone} || stage.Seeded? || stage.Synced?
  }

  function AccountRow(w: World, id: int): PlatformAccount { PlatformAccount(w.tenant, id, w.who.email, ADMIN) }

  /** Someone of this tenant can sign in. */
  predicate Open(w: World) { exists a :: a in w.accounts && a.tenant == w.tenant }

  /** Row `at` is not an administrator's: user management leaves those alone. */
  predicate Managed(db: TenantDb, at: nat) { at < |db.users| && db.users[at].role != ADMIN }

  /** No administrator's row has this id. */
  predicate ManagedId(db: TenantDb, id: int) { forall i :: 0 <= i < |db.users| && db.users[i].id == id ==> db.users[i].role != ADMIN }

  function OnDb(w: World, db: TenantDb): World { w.(db := Some(db)) }

  function PutOther(w: World, row: PlatformAccount): World {
    if Taken(w.accounts, row) then w else w.(accounts := UpsertAccount(w.accounts, row))
  }

  function DropOther(w: World, id: int): World {
    w.(accounts := set a | a in w.accounts && !(a.tenant == w.tenant && a.userId == id))
  }

  /** One statement of user management, once someone can sign in. */
  function Manage(w: World, a: Action): World
    requires w.db.Some?
  {
    var db := w.db.value;
    match a
    case AddUser(name, email, password, role) =>
      if role in OPERATIONAL then OnDb(w, InsertUser(db.(nextId := db.nextId + 1), LocalUser(db.nextId, name, email, password, role))) else w
    case EditUser(at, name, email, role) =>
      if Managed(db, at) && role in OPERATIONAL then OnDb(w, ChangeUser(db, at, name, email, role)) else w
    case DropUser(at) => if Managed(db, at) then OnDb(w, RemoveUser(db, at)) else w
    case RestoreUser(row) => if row.role in OPERATIONAL then OnDb(w, InsertUser(db, row)) else w
    case PutUserAccount(id, email, role) =>
      if ManagedId(db, id) && role in OPERATIONAL then PutOther(w, PlatformAccount(w.tenant, id, email, role)) else w
    case DropUserAccount(id) => if ManagedId(db, id) then DropOther(w, id) else w
    case _ => w
  }

  function BeginAttempt(w: World, p: int, registering: bool, seeds: bool): World {
    if p in w.attempts || (seeds && !w.pending) then w
    else w.(attempts := w.attempts[p := Attempt(registering && seeds, seeds, Queued)])
  }

  function FailAttempt(w: World, p: int, marked: bool): World {
    if p !in w.attempts || At(w, p).Failing? then w
    else if !Inside(At(w, p)) then Leave(w, p)
    else
      var x := w.(status := if marked && At(w, p) != Holding then Failed else w.status,
                  holder := if w.holder == Some(p) then None else w.holder);
      if w.attempts[p].registering then Move(x, p, Failing) else Leave(x, p)
  }

  function Apply(w: World, p: int): World
    requires p in w.attempts && w.db.Some?
  {
    if w.db.value.applied < w.total then w.(db := Some(w.db.value.(applied := w.db.value.applied + 1))) else Move(w, p, SchemaDone)
  }

  function Seed(w: World, p: int): World
    requires p in w.attempts && w.db.Some?
  {
    var db := PutUser(w.db.value, w.who);
    Move(w.(db := Some(db)), p, Seeded(IdOf(db.users, w.who.email)))
  }

  function Sync(w: World, p: int, id: int): World
    requires p in w.attempts && w.db.Some?
  {
    Move(w.(db := Some(w.db.value.(nextId := MaxId(w.db.value.users) + 1))), p, Synced(id))
  }

  function Finish(w: World, p: int): World
    requires p in w.attempts
  {
    var x := w.(status := Ready, holder := if w.holder == Some(p) then None else w.holder);
    if At(w, p).Synced? then Move(x, p, Provisioned(At(w, p).id)) else Leave(x, p)
  }

  function Register(w: World, p: int, id: int): World
    requires p in w.attempts
  {
    if Taken(w.accounts, AccountRow(w, id)) then Leave(w, p)
    else Move(w.(accounts := UpsertAccount(w.accounts, AccountRow(w, id))), p, AccountDone)
  }

  function Step(w: World, a: Action): World {
    match a
    case Begin(p, registering, seeds) => BeginAttempt(w, p, registering, seeds)
    case Acquire(p) => if p in w.attempts && At(w, p) == Queued && w.holder.None? then Move(w.(holder := Some(p)), p, Holding) else w
    case Mark(p) => if p in w.attempts && At(w, p) == Holding then Move(w.(status := InProgress), p, Marked) else w
    case EnsureDb(p) =>
      if p in w.attempts && At(w, p) == Marked then Move(w.(db := if w.db.None? then Some(TenantDb(0, [], 1)) else w.db), p, HasDb) else w
    case ApplyNext(p) => if p in w.attempts && At(w, p) == HasDb && w.db.Some? then Apply(w, p) else w
    case PutAdmin(p) => if p in w.attempts && At(w, p) == SchemaDone && w.attempts[p].seeds && w.db.Some? then Seed(w, p) else w
    case SyncIds(p) => if p in w.attempts && At(w, p).Seeded? && w.db.Some? then Sync(w, p, At(w, p).id) else w
    case MarkReady(p) =>
      if p in w.attempts && (At(w, p).Synced? || (At(w, p) == SchemaDone && !w.attempts[p].seeds)) then Finish(w, p) else w
    case PutAccount(p) => if p in w.attempts && At(w, p).Provisioned? then Register(w, p, At(w, p).id) else w
    case ClearPending(p) => if At(w, p) == AccountDone then Leave(w.(pending := false), p) else w
    case Fault(p, marked) => FailAttempt(w, p, marked)
    case Crash(p) => Leave(w, p)
    case LateMark(p) => if p in w.attempts && At(w, p).Failing? then Leave(w.(status := Failed), p) else w
    case Elsewhere(accounts) =>
      if OwnAccounts(accounts, w.tenant) == OwnAccounts(w.accounts, w.tenant) && UniqueEmails(accounts) then w.(accounts := accounts) else w
    case _ => if w.db.Some? && Open(w) then Manage(w, a) else w
  }

  function OwnAccounts(accounts: set<PlatformAccount>, tenant: string): set<PlatformAccount> {
    set a | a in accounts && a.tenant == tenant
  }

  /** The unique index on lower(email). */
  predicate UniqueEmails(accounts: set<PlatformAccount>) {
    forall a, b :: a in accounts && b in accounts && ToLower(a.email) == ToLower(b.email) ==> a == b
  }

  function Run(w: World, actions: seq<Action>): World
    decreases actions
  {
    if actions == [] then w else Run(Step(w, actions[0]), actions[1..])
  }

  // ---- What every run keeps ----

  predicate Complete(w: World) { w.db.Some? && w.db.value.applied == w.total }

  /** The administrator's row is there with this id. */
  predicate SeededWith(w: World, id: int) { Complete(w) && AdminRow(w.who, id) in w.db.value.users }

  /** ... and his platform account matches it. */
  ghost predicate Registered(w: World) { exists id :: SeededWith(w, id) && AccountRow(w, id) in w.accounts }

  /** The primary key and the unique address of the users table. */
  ghost predicate Keyed(users: seq<LocalUser>) {
    forall i, j :: 0 <= i < j < |users| ==> users[i].id != users[j].id && users[i].email != users[j].email
  }

  /** Whoever has the registrant's address or the admin role is the administrator as registered. */
  ghost predicate OnlyAdmin(who: Registrant, users: seq<LocalUser>) {
    forall i :: 0 <= i < |users| && (users[i].role == ADMIN || users[i].email == who.email) ==> users[i] == AdminRow(who, users[i].id)
  }

  ghost predicate HasAdmin(who: Registrant, users: seq<LocalUser>) {
    exists i :: 0 <= i < |users| && users[i] == AdminRow(who, users[i].id)
  }

  /** No id of an administrator is given out again. */
  ghost predicate AdminIdUsed(db: TenantDb) {
    forall i :: 0 <= i < |db.users| && db.users[i].role == ADMIN ==> 1 <= db.users[i].id < db.nextId
  }

  ghost predicate RowsSound(who: Registrant, db: TenantDb) {
    && 1 <= db.nextId && Keyed(db.users) && OnlyAdmin(who, db.users) && AdminIdUsed(db)
    && (db.users != [] ==> HasAdmin(who, db.users))
  }

  ghost predicate DbSound(w: World) {
    w.db.Some? ==>
      var db := w.db.value;
      db.applied <= w.total && RowsSound(w.who, db) && (db.users != [] ==> db.applied == w.total)
  }

  ghost predicate StageSound(w: World, stage: Stage) {
    match stage
    case HasDb => w.db.Some?
    case SchemaDone => Complete(w)
    case Seeded(id) => SeededWith(w, id)
    case Synced(id) => SeededWith(w, id)
    case Provisioned(id) => SeededWith(w, id)
    case AccountDone => Registered(w)
    case _ => true
  }

  /** An account of the tenant with the admin role, the registrant's address or the administrator's id
      is the administrator's own. */
  ghost predicate AccountSound(w: World, a: PlatformAccount) {
    a.role == ADMIN || ToLower(a.email) == ToLower(w.who.email) || SeededWith(w, a.userId) ==>
      SeededWith(w, a.userId) && a == AccountRow(w, a.userId)
  }

  ghost predicate AccountsSound(w: World) {
    && (forall a :: a in w.accounts && a.tenant == w.tenant ==> AccountSound(w, a))
    && (!w.pending || Open(w) ==> Registered(w))
  }

  ghost predicate Sound(w: World) {
    && DbSound(w)
    && (w.status == Ready ==> Complete(w))
    && (forall p :: p in w.attempts ==> StageSound(w, At(w, p)))
    && AccountsSound(w)
    && UniqueEmails(w.accounts)
    && HolderSound(w)
  }

  ghost predicate HolderSound(w: World) {
    w.holder.Some? ==> w.holder.value in w.attempts && Inside(At(w, w.holder.value))
  }

  /** Later: the database is no less complete, and its administrator has the same id. */
  ghost predicate Advances(w: World, x: World) {
    && x.tenant == w.tenant && x.total == w.total && x.who == w.who
    && (w.db.Some? ==> x.db.Some? && w.db.value.applied <= x.db.value.applied)
    && (forall id :: SeededWith(w, id) ==> SeededWith(x, id))
    && (Registered(w) ==> Registered(x))
  }

  lemma AdvancesOn(w: World, x: World, y: World)
    requires Advances(w, x) && Advances(x, y)
    ensures Advances(w, y)
  {}

  lemma AdvancesItself(w: World)
    ensures Advances(w, w)
  {}

  // ---- The rows of the users table ----

  lemma AdminIsFurtherOn(who: Registrant, users: seq<LocalUser>)
    requires Keyed(users) && OnlyAdmin(who, users) && HasAdmin(who, users) && users[0].email != who.email
    ensures Keyed(users[1..]) && OnlyAdmin(who, users[1..]) && HasAdmin(who, users[1..])
  {
    var rest := users[1..];
    assert forall i :: 0 <= i < |rest| ==> rest[i] == users[i + 1];
    var i :| 0 <= i < |users| && users[i] == AdminRow(who, users[i].id);
    assert rest[i - 1] == users[i];
  }

  /** The administrator is found by his address, whatever other rows there are. */
  lemma {:induction false} AdminIsFound(who: Registrant, users: seq<LocalUser>, id: int)
    requires Keyed(users) && OnlyAdmin(who, users) && HasAdmin(who, users)
    ensures PutRow(users, id, who) == users && AdminRow(who, IdOf(users, who.email)) in users
  {
    assert users == [users[0]] + users[1..];
    if users[0].email != who.email {
      AdminIsFurtherOn(who, users);
      hide Keyed, OnlyAdmin, HasAdmin;
      AdminIsFound(who, users[1..], id);
    }
  }

  lemma PutUserFacts(who: Registrant, db: TenantDb)
    requires RowsSound(who, db)
    ensures var d := PutUser(db, who);
            && RowsSound(who, d) && d.applied == db.applied && AdminRow(who, IdOf(d.users, who.email)) in d.users
            && d.users == if db.users == [] then [AdminRow(who, db.nextId)] else db.users
  {
    if db.users != [] { AdminIsFound(who, db.users, db.nextId); }
  }

  /** The same administrators, under the same ids. */
  ghost predicate SameAdmins(who: Registrant, a: TenantDb, b: TenantDb) {
    forall id :: AdminRow(who, id) in a.users <==> AdminRow(who, id) in b.users
  }

  lemma InsertKeepsRows(who: Registrant, db: TenantDb, row: LocalUser)
    requires RowsSound(who, db) && db.users != [] && row.role != ADMIN
    ensures var d := InsertUser(db, row); RowsSound(who, d) && d.users != [] && SameAdmins(who, db, d)
  {
    var d := InsertUser(db, row);
    if d != db {
      assert d.users == db.users + [row];
      var i :| 0 <= i < |db.users| && db.users[i] == AdminRow(who, db.users[i].id);
      assert row.email != who.email;
      assert d.users[i] == db.users[i];
      assert d.users[|db.users|] == row;
      assert forall u :: u in d.users <==> u in db.users || u == row;
    }
  }

  lemma ChangeKeepsRows(who: Registrant, db: TenantDb, at: nat, name: string, email: string, role: string)
    requires RowsSound(who, db) && Managed(db, at) && role != ADMIN
    ensures var d := ChangeUser(db, at, name, email, role); RowsSound(who, d) && d.users != [] && SameAdmins(who, db, d)
  {
    var d := ChangeUser(db, at, name, email, role);
    if d != db {
      var i :| 0 <= i < |db.users| && db.users[i] == AdminRow(who, db.users[i].id);
      assert i != at && d.users[i] == db.users[i] && email != who.email;
      forall id ensures AdminRow(who, id) in db.users <==> AdminRow(who, id) in d.users {
        if AdminRow(who, id) in db.users {
          var j :| 0 <= j < |db.users| && db.users[j] == AdminRow(who, id);
          assert d.users[j] == db.users[j];
        }
      }
    }
  }

  lemma RemovedRows(db: TenantDb, at: nat)
    requires at < |db.users|
    ensures var d := RemoveUser(db, at);
            && (forall j :: 0 <= j < |d.users| ==> d.users[j] == db.users[if j < at then j else j + 1])
            && (forall j :: 0 <= j < |db.users| && j != at ==> db.users[j] in d.users)
  {
    var d := RemoveUser(db, at);
    forall j | 0 <= j < |db.users| && j != at ensures db.users[j] in d.users {
      assert d.users[if j < at then j else j - 1] == db.users[j];
    }
  }

  lemma RemovedIsKeyed(db: TenantDb, at: nat)
    requires at < |db.users| && Keyed(db.users)
    ensures Keyed(RemoveUser(db, at).users)
  {
    RemovedRows(db, at);
    hide RemoveUser;
  }

  lemma RemovedHasAdmin(who: Registrant, db: TenantDb, at: nat)
    requires Managed(db, at) && HasAdmin(who, db.users)
    ensures HasAdmin(who, RemoveUser(db, at).users) && SameAdmins(who, db, RemoveUser(db, at))
  {
    var d := RemoveUser(db, at);
    RemovedRows(db, at);
    var i :| 0 <= i < |db.users| && db.users[i] == AdminRow(who, db.users[i].id);
    assert db.users[i] in d.users;
    hide RemoveUser;
    assert forall u :: u in d.users ==> u in db.users;
  }

  lemma RemoveKeepsRows(who: Registrant, db: TenantDb, at: nat)
    requires RowsSound(who, db) && Managed(db, at)
    ensures var d := RemoveUser(db, at); RowsSound(who, d) && d.users != [] && SameAdmins(who, db, d)
  {
    RemovedRows(db, at);
    RemovedIsKeyed(db, at);
    RemovedHasAdmin(who, db, at);
    assert RemoveUser(db, at).nextId == db.nextId;
    hide RemoveUser, Keyed, SameAdmins;
  }

  lemma {:induction false} MaxIdBounds(users: seq<LocalUser>)
    ensures MaxId(users) >= 1 && forall i :: 0 <= i < |users| ==> users[i].id <= MaxId(users)
  {
    if users != [] {
      MaxIdBounds(users[1..]);
      assert forall i :: 1 <= i < |users| ==> users[i] == users[1..][i - 1];
    }
  }

  // ---- The steps keep the invariant ----

  /** A step on the control row, the lock and the attempts only. */
  lemma ControlKeepsSound(w: World, x: World)
    requires Sound(w) && x == w.(status := x.status, pending := x.pending, holder := x.holder, attempts := x.attempts)
    requires x.status == Ready ==> Complete(w)
    requires forall q :: q in x.attempts ==> StageSound(w, At(x, q))
    requires (!x.pending ==> Registered(w)) && HolderSound(x)
    ensures Sound(x) && Advances(w, x)
  {
    assert forall id :: SeededWith(w, id) <==> SeededWith(x, id);
    assert forall id :: AccountRow(w, id) == AccountRow(x, id);
    assert forall a :: AccountSound(w, a) <==> AccountSound(x, a);
    hide SeededWith, AccountSound, RowsSound, UniqueEmails, HolderSound;
    assert Registered(w) <==> Registered(x);
    hide Registered;
    assert forall stage :: StageSound(w, stage) <==> StageSound(x, stage);
  }

  /** A step on the tenant database and the accounts only. */
  lemma TablesKeepSound(w: World, x: World)
    requires Sound(w) && x == w.(db := x.db, accounts := x.accounts)
    requires DbSound(x) && AccountsSound(x) && UniqueEmails(x.accounts)
    requires w.db.Some? ==> x.db.Some? && w.db.value.applied <= x.db.value.applied
    requires forall id :: SeededWith(w, id) ==> SeededWith(x, id)
    requires Registered(w) ==> Registered(x)
    ensures Sound(x) && Advances(w, x)
  {
    assert Complete(w) ==> Complete(x);
    hide SeededWith, Registered, RowsSound, UniqueEmails, AccountsSound;
    forall q | q in x.attempts ensures StageSound(x, At(x, q)) { assert StageSound(w, At(w, q)); }
  }

  lemma MoveKeepsSound(w: World, p: int, stage: Stage)
    requires Sound(w) && p in w.attempts && StageSound(w, stage) && (w.holder == Some(p) ==> Inside(stage))
    ensures Sound(Move(w, p, stage)) && Advances(w, Move(w, p, stage))
  {
    var x := Move(w, p, stage);
    assert forall q :: q in x.attempts ==> q == p || At(x, q) == At(w, q);
    assert HolderSound(x) && forall q :: q in x.attempts ==> StageSound(w, At(x, q)) by { hide StageSound, DbSound, AccountsSound, UniqueEmails, Complete; }
    hide StageSound, DbSound, UniqueEmails, HolderSound, Advances, Registered;
    ControlKeepsSound(w, x);
  }

  lemma LeaveKeepsSound(w: World, p: int)
    requires Sound(w)
    ensures Sound(Leave(w, p)) && Advances(w, Leave(w, p))
  {
    var x := Leave(w, p);
    assert forall q :: q in x.attempts ==> At(x, q) == At(w, q);
    assert HolderSound(x) && forall q :: q in x.attempts ==> StageSound(w, At(x, q)) by { hide StageSound, DbSound, AccountsSound, UniqueEmails, Complete; }
    hide StageSound, DbSound, UniqueEmails, HolderSound, Advances, Registered;
    ControlKeepsSound(w, x);
  }

  lemma StatusKeepsSound(w: World, status: Status, release: bool)
    requires Sound(w) && (status == Ready ==> Complete(w) || w.status == Ready)
    ensures var x := w.(status := status, holder := if release then None else w.holder); Sound(x) && Advances(w, x)
  {
    var x := w.(status := status, holder := if release then None else w.holder);
    assert forall q :: q in x.attempts ==> StageSound(w, At(x, q)) by { hide StageSound, DbSound, AccountsSound, UniqueEmails, Complete; }
    hide StageSound, DbSound, UniqueEmails, Advances, Registered;
    ControlKeepsSound(w, x);
  }

  lemma BeginKeepsSound(w: World, p: int, registering: bool, seeds: bool)
    requires Sound(w)
    ensures Sound(BeginAttempt(w, p, registering, seeds)) && Advances(w, BeginAttempt(w, p, registering, seeds))
  {
    var x := BeginAttempt(w, p, registering, seeds);
    assert forall q :: q in x.attempts ==> At(x, q) == Queued || (q in w.attempts && At(x, q) == At(w, q));
    assert forall q :: q in x.attempts ==> StageSound(w, At(x, q)) by { hide DbSound, AccountsSound, UniqueEmails, Complete, SeededWith, Registered; }
    assert HolderSound(x);
    hide StageSound, DbSound, UniqueEmails, Advances, Registered, HolderSound;
    ControlKeepsSound(w, x);
  }

  lemma AcquireKeepsSound(w: World, p: int)
    requires Sound(w) && p in w.attempts && At(w, p) == Queued && w.holder.None?
    ensures Sound(Move(w.(holder := Some(p)), p, Holding)) && Advances(w, Move(w.(holder := Some(p)), p, Holding))
  {
    var x := Move(w.(holder := Some(p)), p, Holding);
    assert forall q :: q in x.attempts ==> q == p || At(x, q) == At(w, q);
    assert StageSound(w, Holding) && At(x, p) == Holding && HolderSound(x);
    assert forall q :: q in x.attempts ==> StageSound(w, At(x, q)) by { hide StageSound, DbSound, AccountsSound, UniqueEmails, Complete; }
    hide StageSound, DbSound, UniqueEmails, Advances, Registered, HolderSound;
    ControlKeepsSound(w, x);
  }

  /** Marking the control row and moving on. */
  lemma MarkAndMove(w: World, p: int, status: Status, stage: Stage)
    requires Sound(w) && p in w.attempts && StageSound(w, stage) && Inside(stage) && (status == Ready ==> Complete(w))
    ensures var x := Move(w.(status := status), p, stage); Sound(x) && Advances(w, x)
  {
    var y := w.(status := status);
    StatusKeepsSound(w, status, false);
    assert StageSound(y, stage) by { SameStage(w, y, stage); }
    hide Sound, Advances, StageSound;
    MoveKeepsSound(y, p, stage);
    AdvancesOn(w, y, Move(y, p, stage));
  }

  lemma SameStage(w: World, y: World, stage: Stage)
    requires StageSound(w, stage) && y == w.(status := y.status, holder := y.holder, pending := y.pending, attempts := y.attempts)
    ensures StageSound(y, stage)
  {
    assert forall id :: SeededWith(w, id) <==> SeededWith(y, id);
    assert forall id :: AccountRow(w, id) == AccountRow(y, id);
    hide SeededWith;
  }

  lemma MarkKeepsSound(w: World, p: int)
    requires Sound(w) && p in w.attempts && At(w, p) == Holding
    ensures Sound(Step(w, Mark(p))) && Advances(w, Step(w, Mark(p)))
  {
    MarkAndMove(w, p, InProgress, Marked);
    hide Sound, Advances, StageSound;
    assert Step(w, Mark(p)) == Move(w.(status := InProgress), p, Marked);
  }

  lemma FinishKeepsSound(w: World, p: int)
    requires Sound(w) && p in w.attempts && (At(w, p).Synced? || At(w, p) == SchemaDone)
    ensures Sound(Finish(w, p)) && Advances(w, Finish(w, p))
  {
    var y := w.(status := Ready, holder := if w.holder == Some(p) then None else w.holder);
    assert StageSound(w, At(w, p));
    assert Complete(w);
    StatusKeepsSound(w, Ready, w.holder == Some(p));
    hide Sound, Advances;
    if At(w, p).Synced? {
      assert StageSound(w, Provisioned(At(w, p).id));
      SameStage(w, y, Provisioned(At(w, p).id));
      MoveKeepsSound(y, p, Provisioned(At(w, p).id));
    } else {
      LeaveKeepsSound(y, p);
    }
    AdvancesOn(w, y, Finish(w, p));
  }

  lemma FailKeepsSound(w: World, p: int, marked: bool)
    requires Sound(w)
    ensures Sound(FailAttempt(w, p, marked)) && Advances(w, FailAttempt(w, p, marked))
  {
    AdvancesItself(w);
    LeaveKeepsSound(w, p);
    if p in w.attempts && Inside(At(w, p)) {
      var status := if marked && At(w, p) != Holding then Failed else w.status;
      var x := w.(status := status, holder := if w.holder == Some(p) then None else w.holder);
      StatusKeepsSound(w, status, w.holder == Some(p));
      assert x.holder != Some(p);
      MoveKeepsSound(x, p, Failing);
      LeaveKeepsSound(x, p);
      AdvancesOn(w, x, FailAttempt(w, p, marked));
    }
    hide Sound, Advances;
  }

  lemma ClearKeepsSound(w: World, p: int)
    requires Sound(w) && p in w.attempts && At(w, p) == AccountDone
    ensures Sound(Leave(w.(pending := false), p)) && Advances(w, Leave(w.(pending := false), p))
  {
    var y := w.(pending := false);
    assert StageSound(w, At(w, p)) && Registered(w);
    assert forall q :: q in y.attempts ==> StageSound(w, At(y, q)) by { hide StageSound, DbSound, AccountsSound, UniqueEmails, Complete; }
    hide StageSound, DbSound, UniqueEmails, Advances, Registered;
    ControlKeepsSound(w, y);
    hide Sound;
    LeaveKeepsSound(y, p);
    AdvancesOn(w, y, Leave(y, p));
  }

  lemma LateMarkKeepsSound(w: World, p: int)
    requires Sound(w)
    ensures Sound(Leave(w.(status := Failed), p)) && Advances(w, Leave(w.(status := Failed), p))
  {
    StatusKeepsSound(w, Failed, false);
    hide Sound, Advances;
    var y := w.(status := Failed);
    LeaveKeepsSound(y, p);
    AdvancesOn(w, y, Leave(y, p));
  }

  /** Nobody is in the users table yet. */
  predicate Blank(w: World) { w.db.Some? ==> w.db.value.users == [] }

  lemma BlankIsClosed(w: World)
    requires Sound(w) && Blank(w)
    ensures (forall id :: !SeededWith(w, id)) && !Registered(w) && !Open(w) && w.pending
  {
    hide RowsSound, UniqueEmails, HolderSound, StageSound;
  }

  lemma BlankKeepsSound(w: World, db: TenantDb)
    requires Sound(w) && Blank(w) && RowsSound(w.who, db) && db.applied <= w.total && (db.users != [] ==> db.applied == w.total)
    requires w.db.Some? ==> w.db.value.applied <= db.applied
    ensures Sound(OnDb(w, db)) && Advances(w, OnDb(w, db))
  {
    BlankIsClosed(w);
    var x := OnDb(w, db);
    assert !Open(x) && x.pending;
    hide RowsSound, UniqueEmails, Sound, Registered, SeededWith, Advances;
    assert AccountsSound(x);
    assert UniqueEmails(x.accounts) by { SoundParts(w); }
    TablesKeepSound(w, x);
  }

  lemma SoundParts(w: World)
    requires Sound(w)
    ensures UniqueEmails(w.accounts) && DbSound(w) && AccountsSound(w)
  {}

  lemma EnsureDbKeepsSound(w: World, p: int)
    requires Sound(w) && p in w.attempts && At(w, p) == Marked
    ensures Sound(Step(w, EnsureDb(p))) && Advances(w, Step(w, EnsureDb(p)))
  {
    var db := if w.db.None? then TenantDb(0, [], 1) else w.db.value;
    var x := OnDb(w, db);
    AdvancesItself(w);
    if w.db.None? { BlankKeepsSound(w, db); } else { assert x == w; }
    hide Sound, Advances;
    assert StageSound(x, HasDb);
    MoveKeepsSound(x, p, HasDb);
    AdvancesOn(w, x, Move(x, p, HasDb));
    assert Step(w, EnsureDb(p)) == Move(x, p, HasDb);
  }

  lemma ApplyKeepsSound(w: World, p: int)
    requires Sound(w) && p in w.attempts && At(w, p) == HasDb && w.db.Some?
    ensures Sound(Apply(w, p)) && Advances(w, Apply(w, p))
  {
    SoundParts(w);
    var db := w.db.value.(applied := w.db.value.applied + 1);
    if w.db.value.applied < w.total {
      assert Blank(w) && RowsSound(w.who, db);
      hide Sound, Advances, RowsSound;
      BlankKeepsSound(w, db);
    } else {
      assert StageSound(w, SchemaDone);
      hide Sound, Advances;
      MoveKeepsSound(w, p, SchemaDone);
    }
  }

  lemma SeedKeepsSound(w: World, p: int)
    requires Sound(w) && p in w.attempts && At(w, p) == SchemaDone && Complete(w)
    ensures Sound(Seed(w, p)) && Advances(w, Seed(w, p))
  {
    var d := PutUser(w.db.value, w.who);
    var x := OnDb(w, d);
    SoundParts(w);
    PutUserFacts(w.who, w.db.value);
    hide Sound, Advances, RowsSound, PutUser, IdOf;
    if w.db.value.users == [] { BlankKeepsSound(w, d); } else { OnDbKeepsSound(w, d); }
    assert StageSound(x, Seeded(IdOf(d.users, w.who.email)));
    MoveKeepsSound(x, p, Seeded(IdOf(d.users, w.who.email)));
    AdvancesOn(w, x, Seed(w, p));
  }

  lemma SyncKeepsRows(who: Registrant, db: TenantDb)
    requires RowsSound(who, db)
    ensures RowsSound(who, db.(nextId := MaxId(db.users) + 1))
  {
    MaxIdBounds(db.users);
  }

  lemma SyncKeepsSound(w: World, p: int, id: int)
    requires Sound(w) && p in w.attempts && At(w, p) == Seeded(id) && SeededWith(w, id)
    ensures Sound(Sync(w, p, id)) && Advances(w, Sync(w, p, id))
  {
    var d := w.db.value.(nextId := MaxId(w.db.value.users) + 1);
    var x := OnDb(w, d);
    SoundParts(w);
    SyncKeepsRows(w.who, w.db.value);
    hide Sound, Advances, RowsSound, MaxId;
    OnDbKeepsSound(w, d);
    assert StageSound(x, Synced(id));
    MoveKeepsSound(x, p, Synced(id));
    AdvancesOn(w, x, Sync(w, p, id));
  }

  lemma OnDbKeepsSound(w: World, db: TenantDb)
    requires Sound(w) && w.db.Some? && RowsSound(w.who, db) && SameAdmins(w.who, w.db.value, db)
    requires db.applied == w.db.value.applied && (db.users != [] ==> db.applied == w.total)
    ensures Sound(OnDb(w, db)) && Advances(w, OnDb(w, db))
  {
    var x := OnDb(w, db);
    SoundParts(w);
    hide RowsSound, UniqueEmails, Sound, Advances;
    assert forall id :: SeededWith(w, id) <==> SeededWith(x, id);
    assert forall id :: AccountRow(w, id) == AccountRow(x, id);
    assert forall a :: AccountSound(w, a) <==> AccountSound(x, a);
    hide SameAdmins, SeededWith, AccountSound;
    assert Registered(w) ==> Registered(x);
    TablesKeepSound(w, x);
  }

  /** The account of the administrator, once anyone can sign in. */
  lemma OpenIsRegistered(w: World) returns (id: int)
    requires Sound(w) && Open(w)
    ensures SeededWith(w, id) && AccountRow(w, id) in w.accounts && w.db.Some? && w.db.value.users != []
  {
    id :| SeededWith(w, id) && AccountRow(w, id) in w.accounts;
  }

  lemma ManagedIsUnseeded(w: World, id: int)
    requires w.db.Some? && ManagedId(w.db.value, id)
    ensures !SeededWith(w, id)
  {}

  lemma AccountsKeepSound(w: World, accounts: set<PlatformAccount>, id: int)
    requires Sound(w) && UniqueEmails(accounts) && SeededWith(w, id) && AccountRow(w, id) in accounts
    requires forall a :: a in accounts && a.tenant == w.tenant ==> AccountSound(w, a)
    ensures Sound(w.(accounts := accounts)) && Advances(w, w.(accounts := accounts))
  {
    var x := w.(accounts := accounts);
    SoundParts(w);
    assert forall i :: SeededWith(w, i) <==> SeededWith(x, i);
    assert forall a :: AccountSound(w, a) <==> AccountSound(x, a);
    hide SeededWith, RowsSound, UniqueEmails, AccountSound, Sound, Advances;
    assert AccountRow(x, id) == AccountRow(w, id);
    assert Registered(x);
    TablesKeepSound(w, x);
  }

  lemma RegisterKeepsSound(w: World, p: int, id: int)
    requires Sound(w) && p in w.attempts && SeededWith(w, id) && w.holder != Some(p)
    ensures Sound(Register(w, p, id)) && Advances(w, Register(w, p, id))
  {
    var row := AccountRow(w, id);
    if Taken(w.accounts, row) {
      LeaveKeepsSound(w, p);
    } else {
      var accounts := UpsertAccount(w.accounts, row);
      var x := w.(accounts := accounts);
      assert AccountSound(w, row) && UniqueEmails(accounts);
      assert forall a :: a in accounts && a.tenant == w.tenant ==> AccountSound(w, a) by { hide AccountSound, DbSound, HolderSound, StageSound, UniqueEmails; }
      hide AccountSound, Advances, Sound, UniqueEmails, Taken, UpsertAccount;
      AccountsKeepSound(w, accounts, id);
      assert row in accounts by { assert row in UpsertAccount(w.accounts, row); }
      assert StageSound(x, AccountDone) by { assert SeededWith(x, id) && AccountRow(x, id) in x.accounts; }
      hide StageSound, SeededWith;
      MoveKeepsSound(x, p, AccountDone);
      AdvancesOn(w, x, Register(w, p, id));
    }
  }

  lemma PutOtherKeepsSound(w: World, row: PlatformAccount)
    requires Sound(w) && Open(w) && w.db.Some? && row.tenant == w.tenant && row.role != ADMIN && ManagedId(w.db.value, row.userId)
    ensures Sound(PutOther(w, row)) && Advances(w, PutOther(w, row))
  {
    AdvancesItself(w);
    var id := OpenIsRegistered(w);
    ManagedIsUnseeded(w, row.userId);
    if !Taken(w.accounts, row) {
      assert row.userId != id;
      assert AccountSound(w, row);
      hide SeededWith, AccountSound, Advances;
      AccountsKeepSound(w, UpsertAccount(w.accounts, row), id);
    }
  }

  lemma DropOtherKeepsSound(w: World, id: int)
    requires Sound(w) && Open(w) && w.db.Some? && ManagedId(w.db.value, id)
    ensures Sound(DropOther(w, id)) && Advances(w, DropOther(w, id))
  {
    var admin := OpenIsRegistered(w);
    ManagedIsUnseeded(w, id);
    hide SeededWith, AccountSound, Advances;
    AccountsKeepSound(w, DropOther(w, id).accounts, admin);
  }

  lemma OperationalIsNotAdmin(role: string)
    requires role in OPERATIONAL
    ensures role != ADMIN
  {}

  lemma AddKeepsSound(w: World, row: LocalUser, next: int)
    requires Sound(w) && Open(w) && w.db.Some? && row.role in OPERATIONAL && next >= w.db.value.nextId
    ensures var x := OnDb(w, InsertUser(w.db.value.(nextId := next), row)); Sound(x) && Advances(w, x)
  {
    var db := w.db.value.(nextId := next);
    var id := OpenIsRegistered(w);
    SoundParts(w);
    assert RowsSound(w.who, db);
    OperationalIsNotAdmin(row.role);
    InsertKeepsRows(w.who, db, row);
    assert SameAdmins(w.who, w.db.value, InsertUser(db, row)) by { hide RowsSound, InsertUser; }
    hide Sound, Open, RowsSound, SameAdmins, AccountsSound, SeededWith;
    OnDbKeepsSound(w, InsertUser(db, row));
  }

  lemma EditKeepsSound(w: World, at: nat, name: string, email: string, role: string)
    requires Sound(w) && w.db.Some? && Managed(w.db.value, at) && role in OPERATIONAL
    ensures var x := OnDb(w, ChangeUser(w.db.value, at, name, email, role)); Sound(x) && Advances(w, x)
  {
    SoundParts(w);
    OperationalIsNotAdmin(role);
    ChangeKeepsRows(w.who, w.db.value, at, name, email, role);
    hide Sound, RowsSound, SameAdmins, AccountsSound;
    OnDbKeepsSound(w, ChangeUser(w.db.value, at, name, email, role));
  }

  lemma DropKeepsSound(w: World, at: nat)
    requires Sound(w) && w.db.Some? && Managed(w.db.value, at)
    ensures var x := OnDb(w, RemoveUser(w.db.value, at)); Sound(x) && Advances(w, x)
  {
    SoundParts(w);
    RemoveKeepsRows(w.who, w.db.value, at);
    hide Sound, RowsSound, SameAdmins, AccountsSound;
    OnDbKeepsSound(w, RemoveUser(w.db.value, at));
  }

  lemma ManageUsersKeepsSound(w: World, a: Action)
    requires Sound(w) && Open(w) && w.db.Some? && (a.AddUser? || a.EditUser? || a.DropUser? || a.RestoreUser?)
    ensures Sound(Manage(w, a)) && Advances(w, Manage(w, a))
  {
    AdvancesItself(w);
    var db := w.db.value;
    hide Sound, Open, Advances, Managed, InsertUser, ChangeUser, RemoveUser;
    match a
    case AddUser(name, email, password, role) =>
      if role in OPERATIONAL { AddKeepsSound(w, LocalUser(db.nextId, name, email, password, role), db.nextId + 1); }
    case EditUser(at, name, email, role) => if Managed(db, at) && role in OPERATIONAL { EditKeepsSound(w, at, name, email, role); }
    case DropUser(at) => if Managed(db, at) { DropKeepsSound(w, at); }
    case RestoreUser(row) =>
      if row.role in OPERATIONAL {
        assert db.(nextId := db.nextId) == db;
        AddKeepsSound(w, row, db.nextId);
      }
  }

  /** User management leaves the administrator's row, id and account alone. */
  lemma ManageKeepsSound(w: World, a: Action)
    requires Sound(w) && Open(w) && w.db.Some?
    ensures Sound(Manage(w, a)) && Advances(w, Manage(w, a))
  {
    AdvancesItself(w);
    hide Sound, Open, Advances, ManagedId, PutOther, DropOther;
    match a
    case PutUserAccount(user, email, role) =>
      if ManagedId(w.db.value, user) && role in OPERATIONAL {
        OperationalIsNotAdmin(role);
        PutOtherKeepsSound(w, PlatformAccount(w.tenant, user, email, role));
      }
    case DropUserAccount(user) => if ManagedId(w.db.value, user) { DropOtherKeepsSound(w, user); }
    case _ => if a.AddUser? || a.EditUser? || a.DropUser? || a.RestoreUser? { ManageUsersKeepsSound(w, a); }
  }

  lemma SoundStage(w: World, p: int)
    requires Sound(w) && p in w.attempts
    ensures StageSound(w, At(w, p)) && (w.holder == Some(p) ==> Inside(At(w, p)))
  {}

  /** The steps of an attempt that go on to its next stage. */
  predicate Advancing(a: Action) {
    a.Acquire? || a.Mark? || a.EnsureDb? || a.ApplyNext? || a.PutAdmin? || a.SyncIds? || a.MarkReady? || a.PutAccount? || a.ClearPending?
  }

  lemma AdvancingKeepsSound(w: World, a: Action)
    requires Sound(w) && Advancing(a) && a.p in w.attempts && Step(w, a) != w
    ensures Sound(Step(w, a)) && Advances(w, Step(w, a))
  {
    SoundStage(w, a.p);
    hide Sound, Advances, Move, Leave, Apply, Seed, Sync, Finish, Register, SeededWith, Complete, Registered;
    match a
    case Acquire(p) => AcquireKeepsSound(w, p);
    case Mark(p) => MarkKeepsSound(w, p);
    case EnsureDb(p) => EnsureDbKeepsSound(w, p);
    case ApplyNext(p) => ApplyKeepsSound(w, p);
    case PutAdmin(p) => SeedKeepsSound(w, p);
    case SyncIds(p) => SyncKeepsSound(w, p, At(w, p).id);
    case MarkReady(p) => FinishKeepsSound(w, p);
    case PutAccount(p) => RegisterKeepsSound(w, p, At(w, p).id);
    case ClearPending(p) => ClearKeepsSound(w, p);
  }

  lemma StrangerDoesNothing(w: World, a: Action)
    requires Advancing(a) && a.p !in w.attempts
    ensures Step(w, a) == w
  {}

  lemma StepKeepsSound(w: World, a: Action)
    requires Sound(w)
    ensures Sound(Step(w, a)) && Advances(w, Step(w, a))
  {
    AdvancesItself(w);
    hide Sound, Advances, BeginAttempt, FailAttempt, Leave, OwnAccounts, Open, Manage, Taken;
    if Advancing(a) {
      hide Step;
      if a.p !in w.attempts { StrangerDoesNothing(w, a); } else if Step(w, a) != w { AdvancingKeepsSound(w, a); }
    } else {
      match a
      case Begin(p, registering, seeds) => BeginKeepsSound(w, p, registering, seeds);
      case Fault(p, marked) => FailKeepsSound(w, p, marked);
      case Crash(p) => LeaveKeepsSound(w, p);
      case LateMark(p) => LateMarkKeepsSound(w, p);
      case Elsewhere(accounts) => if Step(w, a) != w { ElsewhereKeepsSound(w, accounts); }
      case _ => if w.db.Some? && Open(w) { ManageKeepsSound(w, a); }
    }
  }

  /** In every interleaving of attempts with faults and crashes and of user management: READY means the
      database is there and records every definition, no user but the one administrator has the admin role
      or the registrant's address, nobody has an account before he has his, and neither the database's
      progress nor his id nor, once written, his account is ever lost. */
  lemma {:induction false} RunKeepsSound(w: World, actions: seq<Action>)
    requires Sound(w)
    ensures Sound(Run(w, actions)) && Advances(w, Run(w, actions))
    decreases actions
  {
    AdvancesItself(w);
    hide Sound, Advances, Step;
    if actions != [] {
      StepKeepsSound(w, actions[0]);
      RunKeepsSound(Step(w, actions[0]), actions[1..]);
      AdvancesOn(w, Step(w, actions[0]), Run(w, actions));
    }
  }

  /** What the registration transaction leaves behind. */
  lemma RegisteredTenantIsSound(tenant: string, total: nat, who: Registrant, accounts: set<PlatformAccount>)
    requires OwnAccounts(accounts, tenant) == {} && UniqueEmails(accounts)
    ensures Sound(World(tenant, total, who, NotStarted, None, accounts, true, None, map[]))
  {
    forall a | a in accounts ensures a.tenant != tenant {
      assert a.tenant == tenant ==> a in OwnAccounts(accounts, tenant);
    }
  }

  lemma ElsewhereKeepsSound(w: World, accounts: set<PlatformAccount>)
    requires Sound(w) && OwnAccounts(accounts, w.tenant) == OwnAccounts(w.accounts, w.tenant) && UniqueEmails(accounts)
    ensures Sound(w.(accounts := accounts)) && Advances(w, w.(accounts := accounts))
  {
    var x := w.(accounts := accounts);
    SoundParts(w);
    assert forall a :: a in accounts && a.tenant == w.tenant ==> a in OwnAccounts(w.accounts, w.tenant);
    assert forall a :: a in w.accounts && a.tenant == w.tenant ==> a in OwnAccounts(accounts, w.tenant);
    assert Open(x) ==> Open(w);
    assert forall i :: SeededWith(w, i) <==> SeededWith(x, i);
    assert forall a :: AccountSound(w, a) <==> AccountSound(x, a);
    hide OwnAccounts, SeededWith, AccountSound, Open, Sound, Advances, RowsSound, UniqueEmails;
    assert Registered(w) ==> Registered(x) by {
      if Registered(w) {
        var id :| SeededWith(w, id) && AccountRow(w, id) in w.accounts;
        assert SeededWith(x, id) && AccountRow(x, id) == AccountRow(w, id);
      }
    }
    TablesKeepSound(w, x);
  }

  // ---- Convergence ----

  function Applying(p: int, n: nat): seq<Action> { seq(n, _ => ApplyNext(p)) }

  function Remaining(w: World): nat {
    if w.db.Some? && w.db.value.applied <= w.total then w.total - w.db.value.applied else w.total
  }

  function Opening(p: int): seq<Action> { [Begin(p, false, true), Acquire(p), Mark(p), EnsureDb(p)] }

  function Closing(p: int): seq<Action> { [PutAdmin(p), SyncIds(p), MarkReady(p), PutAccount(p), ClearPending(p)] }

  /** One recovery, start to end, with no fault and nobody else in flight. */
  function Recovery(w: World, p: int): (steps: seq<Action>)
    ensures |steps| == Remaining(w) + 10
  {
    Opening(p) + Applying(p, Remaining(w) + 1) + Closing(p)
  }

  lemma {:induction false} RunAppend(w: World, a: seq<Action>, b: seq<Action>)
    ensures Run(w, a + b) == Run(Run(w, a), b)
    decreases a
  {
    hide Step;
    if a == [] {
      assert a + b == b;
    } else {
      assert (a + b)[1..] == a[1..] + b;
      RunAppend(Step(w, a[0]), a[1..], b);
    }
  }

  lemma RunOne(w: World, a: Action)
    ensures Run(w, [a]) == Step(w, a)
  {}

  lemma RunTwo(w: World, a: Action, b: Action)
    ensures Run(w, [a, b]) == Step(Step(w, a), b)
  {
    hide Step;
    assert [a, b][1..] == [b];
    RunOne(Step(w, a), b);
  }

  predicate Idle(w: World) { w.attempts == map[] && w.holder.None? }

  /** Only this attempt is in flight, it holds the lock and carries the administrator. */
  predicate Alone(w: World, p: int, stage: Stage) {
    w.attempts == map[p := Attempt(false, true, stage)] && w.holder == if Inside(stage) then Some(p) else None
  }

  lemma OpeningReachesDb(w: World, p: int)
    requires Idle(w) && w.pending
    ensures var x := Run(w, Opening(p));
            && Alone(x, p, HasDb) && x.db == (if w.db.None? then Some(TenantDb(0, [], 1)) else w.db)
            && x == w.(status := InProgress, db := x.db, holder := x.holder, attempts := x.attempts)
  {
    var x := Step(Step(w, Begin(p, false, true)), Acquire(p));
    assert Alone(x, p, Holding) && x == w.(holder := x.holder, attempts := x.attempts);
    assert Opening(p) == [Begin(p, false, true), Acquire(p)] + [Mark(p), EnsureDb(p)];
    RunTwo(w, Begin(p, false, true), Acquire(p));
    RunTwo(x, Mark(p), EnsureDb(p));
    RunAppend(w, [Begin(p, false, true), Acquire(p)], [Mark(p), EnsureDb(p)]);
    hide Run;
  }

  lemma {:induction false} ApplyingCompletes(w: World, p: int, n: nat)
    requires Alone(w, p, HasDb) && w.db.Some? && w.db.value.applied <= w.total && n == w.total - w.db.value.applied
    ensures var x := Run(w, Applying(p, n + 1));
            && Alone(x, p, SchemaDone) && x.db == Some(w.db.value.(applied := w.total))
            && x == w.(db := x.db, attempts := x.attempts)
    decreases n
  {
    var all := Applying(p, n + 1);
    var x := Step(w, ApplyNext(p));
    assert all[1..] == Applying(p, n);
    if n == 0 {
      assert Run(x, []) == x;
    } else {
      assert Alone(x, p, HasDb);
      ApplyingCompletes(x, p, n - 1);
    }
  }

  /** Another tenant's account already holds the registrant's address. */
  predicate HeldElsewhere(w: World) {
    exists a :: a in w.accounts && a.tenant != w.tenant && ToLower(a.email) == ToLower(w.who.email)
  }

  lemma TakenIffHeldElsewhere(w: World, id: int)
    requires Sound(w) && SeededWith(w, id)
    ensures Taken(w.accounts, AccountRow(w, id)) <==> HeldElsewhere(w)
  {}

  lemma HeldMeansUnregistered(w: World)
    requires Sound(w) && HeldElsewhere(w)
    ensures !Registered(w)
  {}

  lemma OneStage(w: World, p: int, from: Stage, stage: Stage)
    requires Alone(w, p, from) && Inside(from) && Inside(stage)
    ensures Alone(Move(w, p, stage), p, stage)
  {
    assert w.attempts[p := w.attempts[p].(stage := stage)] == map[p := Attempt(false, true, stage)];
  }

  lemma PutAdminSeeds(w: World, p: int)
    requires Alone(w, p, SchemaDone) && w.db.Some?
    ensures var x := Step(w, PutAdmin(p));
            && x == Seed(w, p) && x == w.(db := x.db, attempts := x.attempts) && At(x, p).Seeded? && Alone(x, p, At(x, p))
            && x.db == Some(PutUser(w.db.value, w.who)) && At(x, p).id == IdOf(x.db.value.users, w.who.email)
  {
    hide PutUser, IdOf, Alone;
    var d := PutUser(w.db.value, w.who);
    assert OnDb(w, d).attempts == w.attempts && Alone(OnDb(w, d), p, SchemaDone) && w.attempts[p].seeds by { AloneSeeds(w, d, p); }
    OneStage(OnDb(w, d), p, SchemaDone, Seeded(IdOf(d.users, w.who.email)));
    AloneIsThere(w, p);
  }

  lemma AloneSeeds(w: World, d: TenantDb, p: int)
    requires Alone(w, p, SchemaDone)
    ensures Alone(OnDb(w, d), p, SchemaDone) && p in w.attempts && w.attempts[p].seeds
  {}

  lemma AloneIsThere(w: World, p: int)
    requires Alone(w, p, SchemaDone)
    ensures p in w.attempts && At(w, p) == SchemaDone
  {}

  lemma PutAdminSucceeds(w: World, p: int)
    requires Sound(w) && Alone(w, p, SchemaDone)
    ensures var x := Step(w, PutAdmin(p));
            && Sound(x) && x == w.(db := x.db, attempts := x.attempts) && At(x, p).Seeded?
            && Alone(x, p, Seeded(At(x, p).id)) && SeededWith(x, At(x, p).id)
            && x.db.value.users == if w.db.value.users == [] then [AdminRow(w.who, w.db.value.nextId)] else w.db.value.users
  {
    SoundStage(w, p);
    SoundParts(w);
    assert Complete(w);
    hide Sound, Advances, RowsSound, PutUser, IdOf, StageSound, UniqueEmails, AccountsSound, Step, Seed;
    PutAdminSeeds(w, p);
    hide Alone;
    SeedKeepsSound(w, p);
    PutUserFacts(w.who, w.db.value);
  }

  lemma SyncSucceeds(w: World, p: int, id: int)
    requires Sound(w) && Alone(w, p, Seeded(id)) && SeededWith(w, id)
    ensures var x := Step(w, SyncIds(p));
            && Sound(x) && x == w.(db := x.db, attempts := x.attempts) && Alone(x, p, Synced(id)) && SeededWith(x, id)
            && x.db.value.users == w.db.value.users
  {
    SyncKeepsSound(w, p, id);
    hide Sound, Advances, MaxId;
    assert Step(w, SyncIds(p)) == Sync(w, p, id);
  }

  /** The upsert of the administrator's account adds it and replaces no other. */
  lemma UpsertAdds(w: World, id: int)
    requires Sound(w) && SeededWith(w, id)
    ensures UpsertAccount(w.accounts, AccountRow(w, id)) == w.accounts + {AccountRow(w, id)}
  {
    SoundParts(w);
    assert forall a :: a in w.accounts && a.tenant == w.tenant ==> AccountSound(w, a);
    hide Sound, DbSound, UniqueEmails, SeededWith;
  }

  lemma AccountSucceeds(w: World, p: int, id: int)
    requires Sound(w) && Alone(w, p, Provisioned(id)) && SeededWith(w, id) && w.status == Ready && w.pending
    ensures var x := Run(w, [PutAccount(p), ClearPending(p)]);
            && Sound(x) && x.status == Ready && x.db == w.db && Idle(x) && (!x.pending <==> !HeldElsewhere(w))
            && (Registered(x) <==> !HeldElsewhere(w))
            && x.accounts == w.accounts + if HeldElsewhere(w) then {} else {AccountRow(w, id)}
  {
    RunKeepsSound(w, [PutAccount(p), ClearPending(p)]);
    var x := Run(w, [PutAccount(p), ClearPending(p)]);
    hide Run, Sound, Advances, Taken, HeldElsewhere, UpsertAccount, SeededWith, Registered;
    RunTwo(w, PutAccount(p), ClearPending(p));
    TakenIffHeldElsewhere(w, id);
    UpsertAdds(w, id);
    if HeldElsewhere(w) {
      HeldMeansUnregistered(w);
      assert x == Leave(w, p);
      UnregisteredStays(w, x);
    } else {
      IsRegistered(x, w, id);
    }
  }

  lemma UnregisteredStays(w: World, x: World)
    requires !Registered(w) && x.db == w.db && x.accounts == w.accounts && x.tenant == w.tenant && x.who == w.who && x.total == w.total
    ensures !Registered(x)
  {
    assert forall id :: SeededWith(w, id) <==> SeededWith(x, id);
    assert forall id :: AccountRow(w, id) == AccountRow(x, id);
    hide SeededWith;
  }

  lemma IsRegistered(x: World, w: World, id: int)
    requires SeededWith(w, id) && x.db == w.db && x.tenant == w.tenant && x.who == w.who && x.total == w.total
    requires AccountRow(w, id) in x.accounts
    ensures Registered(x)
  {
    assert SeededWith(x, id) && AccountRow(x, id) in x.accounts;
  }

  lemma FinishSucceeds(w: World, p: int, id: int)
    requires Sound(w) && Alone(w, p, Synced(id)) && SeededWith(w, id)
    ensures var x := Step(w, MarkReady(p));
            && Sound(x) && x == w.(status := Ready, holder := None, attempts := x.attempts)
            && Alone(x, p, Provisioned(id)) && SeededWith(x, id)
  {}

  /** Exactly one row has the registrant's address, exactly one has the admin role, and it is the same one,
      as registered. */
  ghost predicate OneAdmin(who: Registrant, users: seq<LocalUser>) {
    exists i :: 0 <= i < |users| && users[i] == AdminRow(who, users[i].id) && AloneAt(who, users, i)
  }

  ghost predicate AloneAt(who: Registrant, users: seq<LocalUser>, i: nat) {
    forall j :: 0 <= j < |users| && j != i ==> users[j].role != ADMIN && users[j].email != who.email
  }

  /** Ready and complete, with the one administrator, and no attempt left. */
  ghost predicate Settled(x: World) { x.status == Ready && Complete(x) && OneAdmin(x.who, x.db.value.users) && Idle(x) }

  lemma SoundAdmin(w: World)
    requires Sound(w) && w.db.Some? && w.db.value.users != []
    ensures OneAdmin(w.who, w.db.value.users) && Complete(w)
  {
    SoundParts(w);
    var users := w.db.value.users;
    var i :| 0 <= i < |users| && users[i] == AdminRow(w.who, users[i].id);
    hide Sound;
    assert AloneAt(w.who, users, i) by {
      forall j | 0 <= j < |users| && j != i ensures users[j].role != ADMIN && users[j].email != w.who.email {
        assert users[j].email != users[i].email;
      }
    }
  }

  /** The users and accounts a recovery adds to those it finds: the administrator's own, where missing. */
  ghost predicate OnlyAdds(w: World, x: World) {
    && x.db.Some? && (if Blank(w) then |x.db.value.users| == 1 else x.db.value.users == w.db.value.users)
    && exists id :: SeededWith(x, id) && x.accounts == w.accounts + if HeldElsewhere(w) then {} else {AccountRow(w, id)}
  }

  lemma ClosingConverges(w: World, p: int)
    requires Sound(w) && Alone(w, p, SchemaDone) && w.pending
    ensures var x := Run(w, Closing(p));
            Settled(x) && (!x.pending <==> !HeldElsewhere(w)) && (Registered(x) <==> !HeldElsewhere(w)) && OnlyAdds(w, x)
  {
    assert StageSound(w, At(w, p)) && Complete(w);
    PutAdminSucceeds(w, p);
    var x1 := Step(w, PutAdmin(p));
    var id := At(x1, p).id;
    SyncSucceeds(x1, p, id);
    var x2 := Step(x1, SyncIds(p));
    FinishSucceeds(x2, p, id);
    var x3 := Step(x2, MarkReady(p));
    assert HeldElsewhere(x3) == HeldElsewhere(w);
    AccountSucceeds(x3, p, id);
    ClosingRuns(w, p);
    var x := Run(w, Closing(p));
    hide Step, Sound, HeldElsewhere, Registered, Run, Closing, StageSound, Alone;
    SoundAdmin(x);
    assert SeededWith(x, id) && AccountRow(x3, id) == AccountRow(w, id);
  }

  lemma ClosingRuns(w: World, p: int)
    ensures Run(w, Closing(p)) == Run(Step(Step(Step(w, PutAdmin(p)), SyncIds(p)), MarkReady(p)), [PutAccount(p), ClearPending(p)])
  {
    hide Step;
    var x2 := Step(Step(w, PutAdmin(p)), SyncIds(p));
    assert Closing(p) == [PutAdmin(p), SyncIds(p)] + ([MarkReady(p)] + [PutAccount(p), ClearPending(p)]);
    RunAppend(w, [PutAdmin(p), SyncIds(p)], [MarkReady(p)] + [PutAccount(p), ClearPending(p)]);
    RunTwo(w, PutAdmin(p), SyncIds(p));
    RunAppend(x2, [MarkReady(p)], [PutAccount(p), ClearPending(p)]);
    RunOne(x2, MarkReady(p));
  }

  lemma RecoveryReachesSchema(w: World, p: int)
    requires Sound(w) && Idle(w) && w.pending
    ensures var x := Run(w, Opening(p) + Applying(p, Remaining(w) + 1));
            && Sound(x) && Alone(x, p, SchemaDone) && x.pending && x.tenant == w.tenant && x.who == w.who && x.accounts == w.accounts
            && x.db.Some? && x.db.value.users == if w.db.Some? then w.db.value.users else []
  {
    RunKeepsSound(w, Opening(p) + Applying(p, Remaining(w) + 1));
    SoundParts(w);
    assert w.db.Some? ==> w.db.value.applied <= w.total by { hide RowsSound, Sound; }
    hide Sound, Run, Opening, Applying, Advances, DbSound, AccountsSound, UniqueEmails;
    OpeningReachesDb(w, p);
    ApplyingCompletes(Run(w, Opening(p)), p, Remaining(w));
    RunAppend(w, Opening(p), Applying(p, Remaining(w) + 1));
  }

  lemma RecoveryConverges(w: World, p: int)
    requires Sound(w) && Idle(w) && w.pending
    ensures var x := Run(w, Recovery(w, p));
            Settled(x) && (Registered(x) <==> !HeldElsewhere(w)) && (!x.pending <==> !HeldElsewhere(w)) && OnlyAdds(w, x)
  {
    RecoveryReachesSchema(w, p);
    var x := Run(w, Opening(p) + Applying(p, Remaining(w) + 1));
    ClosingConverges(x, p);
    assert HeldElsewhere(x) == HeldElsewhere(w) && Blank(x) == Blank(w);
    hide Sound, HeldElsewhere, Registered, Run, Opening, Applying, Closing, Settled, Alone, SeededWith;
    RunAppend(w, Opening(p) + Applying(p, Remaining(w) + 1), Closing(p));
    OnlyAddsFrom(w, x, Run(w, Recovery(w, p)));
  }

  lemma OnlyAddsFrom(w: World, x: World, y: World)
    requires OnlyAdds(x, y) && x.accounts == w.accounts && x.tenant == w.tenant && x.who == w.who
    requires x.db.Some? && x.db.value.users == if w.db.Some? then w.db.value.users else []
    ensures OnlyAdds(w, y)
  {
    assert HeldElsewhere(x) == HeldElsewhere(w);
    var id :| SeededWith(y, id) && y.accounts == x.accounts + if HeldElsewhere(x) then {} else {AccountRow(x, id)};
    assert AccountRow(x, id) == AccountRow(w, id);
    hide HeldElsewhere, SeededWith;
  }

  /** After any run of faulted attempts and of user management, one undisturbed recovery makes the tenant
      READY with its schema complete and exactly its one administrator, under the id he may already have
      had, every other user and account kept; his platform account exists and matches, and the
      registration is cleared, exactly when no other tenant's account holds his address. */
  lemma RecoveryConvergesIff(start: World, actions: seq<Action>, p: int)
    requires Sound(start) && Idle(Run(start, actions)) && Run(start, actions).pending
    ensures var w := Run(start, actions);
            var x := Run(w, Recovery(w, p));
            && Settled(x) && (Registered(x) <==> !HeldElsewhere(w)) && (!x.pending <==> !HeldElsewhere(w)) && OnlyAdds(w, x)
            && (forall id :: SeededWith(start, id) || SeededWith(w, id) ==> SeededWith(x, id))
  {
    var w := Run(start, actions);
    RunKeepsSound(start, actions);
    RunKeepsSound(w, Recovery(w, p));
    RecoveryConverges(w, p);
    hide Sound, HeldElsewhere, Registered, Run, Recovery, Settled, SeededWith, OnlyAdds;
  }

  /** A run in which it does not: another tenant's user takes the registrant's address before the first
      attempt, and a recovery without any fault then ends READY with no account for the administrator. */
  lemma HeldAddressStaysUnregistered(tenant: string, total: nat, who: Registrant, other: PlatformAccount, p: int)
    requires other.tenant != tenant && ToLower(other.email) == ToLower(who.email)
    ensures var w := Run(World(tenant, total, who, NotStarted, None, {}, true, None, map[]), [Elsewhere({other})]);
            var x := Run(w, Recovery(w, p));
            Idle(w) && w.pending && HeldElsewhere(w) && Settled(x) && !Registered(x) && x.pending
  {
    var start := World(tenant, total, who, NotStarted, None, {}, true, None, map[]);
    assert OwnAccounts({}, tenant) == {};
    RegisteredTenantIsSound(tenant, total, who, {});
    assert OwnAccounts({other}, tenant) == {};
    RunOne(start, Elsewhere({other}));
    var w := Run(start, [Elsewhere({other})]);
    assert w == start.(accounts := {other}) && HeldElsewhere(w);
    hide Run, Recovery, Sound, HeldElsewhere, Settled, Registered, OnlyAdds;
    RecoveryConvergesIff(start, [Elsewhere({other})], p);
  }

  /** A recovery is refused only once its result is there: the registration is cleared after the
      account was written, never before. */
  lemma RefusedOnlyWhenRegistered(start: World, actions: seq<Action>, p: int)
    requires Sound(start) && p !in Run(start, actions).attempts
    ensures Step(Run(start, actions), Begin(p, false, true)) == Run(start, actions) ==> Registered(Run(start, actions))
  {
    RunKeepsSound(start, actions);
    var w := Run(start, actions);
    assert p in w.attempts[p := Attempt(false, true, Queued)];
    hide Run;
  }

  // ---- What the statements of an attempt leave ----

  /** After the sequence is set, the next id lies above every user's, and right above the highest. */
  lemma SyncOutcome(w: World, p: int, id: int)
    requires p in w.attempts && w.db.Some?
    ensures var d, x := w.db.value, Sync(w, p, id).db;
            && x.Some? && x.value.users == d.users && x.value.applied == d.applied
            && 2 <= x.value.nextId && (forall u :: u in d.users ==> u.id < x.value.nextId)
            && (x.value.nextId == 2 || exists u :: u in d.users && u.id == x.value.nextId - 1)
  {
    MaxIdBounds(w.db.value.users);
    MaxIdIsReached(w.db.value.users);
  }

  lemma {:induction false} MaxIdIsReached(users: seq<LocalUser>)
    ensures MaxId(users) == 1 || exists u :: u in users && u.id == MaxId(users)
  {
    if users != [] { MaxIdIsReached(users[1..]); }
  }

  /** So the next user the administrator creates is entered, wherever his address is free. */
  lemma SyncedIdIsFree(w: World, p: int, id: int, name: string, email: string, password: string, role: string)
    requires p in w.attempts && w.db.Some? && forall u :: u in w.db.value.users ==> u.email != email
    ensures var d := Sync(w, p, id).db.value;
            InsertUser(d, LocalUser(d.nextId, name, email, password, role)).users
            == w.db.value.users + [LocalUser(d.nextId, name, email, password, role)]
  {
    SyncOutcome(w, p, id);
    hide MaxId;
  }

  /** The administrator's upsert appends him under the next id, or renews the row with his address in place. */
  lemma {:induction false} SeedOutcome(users: seq<LocalUser>, id: int, who: Registrant)
    ensures (forall i :: 0 <= i < |users| ==> users[i].email != who.email) ==>
              PutRow(users, id, who) == users + [LocalUser(id, who.name, who.email, who.password, ADMIN)]
    ensures forall i :: 0 <= i < |users| && users[i].email == who.email && (forall j :: 0 <= j < i ==> users[j].email != who.email) ==>
              PutRow(users, id, who) == users[i := LocalUser(users[i].id, who.name, who.email, who.password, ADMIN)]
  {
    if users != [] {
      assert users == [users[0]] + users[1..];
      if users[0].email != who.email {
        SeedOutcome(users[1..], id, who);
        assert forall i :: 0 <= i < |users| - 1 ==> users[1..][i] == users[i + 1];
        forall i | 0 <= i < |users| && users[i].email == who.email && (forall j :: 0 <= j < i ==> users[j].email != who.email)
          ensures PutRow(users, id, who) == users[i := LocalUser(users[i].id, who.name, who.email, who.password, ADMIN)]
        {
          assert users[1..][i - 1].email == who.email;
        }
      }
    }
  }

  // ---- What the statements of user management leave ----

  /** Some account of the tenant can sign in. */
  predicate SignInPossible(w: World) { w.db.Some? && exists a :: a in w.accounts && a.tenant == w.tenant }

  predicate OfferedRole(role: string) { role == "manager" || role == "recruiter" || role == "team_leader" }

  /** No user has this id or this address. */
  predicate FreeIn(db: TenantDb, id: int, email: string) {
    forall i :: 0 <= i < |db.users| ==> db.users[i].id != id && db.users[i].email != email
  }

  /** A new user stands last, under the next id, which is used up also where his address is taken. */
  lemma AddOutcome(w: World, name: string, email: string, password: string, role: string)
    ensures var x := Step(w, AddUser(name, email, password, role));
            if SignInPossible(w) && OfferedRole(role)
            then
              var db := w.db.value;
              x == w.(db := Some(TenantDb(db.applied, x.db.value.users, db.nextId + 1)))
              && x.db.value.users == if FreeIn(db, db.nextId, email) then db.users + [LocalUser(db.nextId, name, email, password, role)] else db.users
            else x == w
  {}

  /** A deleted row may be put back as it was, where its id and address are still free. */
  lemma RestoreOutcome(w: World, row: LocalUser)
    ensures var x := Step(w, RestoreUser(row));
            if SignInPossible(w) && OfferedRole(row.role) && FreeIn(w.db.value, row.id, row.email)
            then x == w.(db := Some(TenantDb(w.db.value.applied, w.db.value.users + [row], w.db.value.nextId)))
            else x == w
  {}

  /** An edit gives one user who is no administrator a new name, address and role, and keeps id and password. */
  lemma EditOutcome(w: World, at: nat, name: string, email: string, role: string)
    ensures var x := Step(w, EditUser(at, name, email, role));
            if SignInPossible(w) && OfferedRole(role) && at < |w.db.value.users| && w.db.value.users[at].role != "admin"
               && (forall i :: 0 <= i < |w.db.value.users| && i != at ==> w.db.value.users[i].email != email)
            then
              var db := w.db.value;
              x == w.(db := Some(TenantDb(db.applied, db.users[at := LocalUser(db.users[at].id, name, email, db.users[at].password, role)], db.nextId)))
            else x == w
  {}

  lemma DropOutcome(w: World, at: nat)
    ensures var x := Step(w, DropUser(at));
            if SignInPossible(w) && at < |w.db.value.users| && w.db.value.users[at].role != "admin"
            then
              && x == w.(db := Some(TenantDb(w.db.value.applied, x.db.value.users, w.db.value.nextId)))
              && |x.db.value.users| == |w.db.value.users| - 1
              && forall i :: 0 <= i < |x.db.value.users| ==> x.db.value.users[i] == w.db.value.users[if i < at then i else i + 1]
            else x == w
  {}

  predicate NoAdminHas(w: World, id: int) { w.db.Some? && forall u :: u in w.db.value.users && u.id == id ==> u.role != "admin" }

  /** An account is written under its tenant and id in place of the one there, unless another account has its
      address in any case; an administrator's is never touched. */
  lemma PutAccountOutcome(w: World, id: int, email: string, role: string)
    ensures var x, row := Step(w, PutUserAccount(id, email, role)), PlatformAccount(w.tenant, id, email, role);
            if SignInPossible(w) && OfferedRole(role) && NoAdminHas(w, id)
               && (forall a :: a in w.accounts && ToLower(a.email) == ToLower(email) ==> a.tenant == w.tenant && a.userId == id)
            then x == w.(accounts := x.accounts)
                 && forall a :: a in x.accounts <==> a == row || (a in w.accounts && (a.tenant != w.tenant || a.userId != id))
            else x == w
  {
    hide ToLower;
  }

  lemma DropAccountOutcome(w: World, id: int)
    ensures var x := Step(w, DropUserAccount(id));
            if SignInPossible(w) && NoAdminHas(w, id)
            then x == w.(accounts := x.accounts) && forall a :: a in x.accounts <==> a in w.accounts && (a.tenant != w.tenant || a.userId != id)
            else x == w
  {}

  /** Other tenants' accounts change freely, as long as no two accounts share an address in any case. */
  lemma ElsewhereOutcome(w: World, accounts: set<PlatformAccount>)
    ensures Step(w, Elsewhere(accounts))
            == if (forall a: PlatformAccount :: a.tenant == w.tenant ==> (a in accounts <==> a in w.accounts))
                  && (forall a, b :: a in accounts && b in accounts && a != b ==> ToLower(a.email) != ToLower(b.email))
               then w.(accounts := accounts) else w
  {
    hide ToLower;
    assert OwnAccounts(accounts, w.tenant) == OwnAccounts(w.accounts, w.tenant)
           <==> forall a: PlatformAccount :: a.tenant == w.tenant ==> (a in accounts <==> a in w.accounts) by { SameOwn(accounts, w.accounts, w.tenant); }
  }

  lemma SameOwn(a: set<PlatformAccount>, b: set<PlatformAccount>, tenant: string)
    ensures OwnAccounts(a, tenant) == OwnAccounts(b, tenant) <==> forall x: PlatformAccount :: x.tenant == tenant ==> (x in a <==> x in b)
  {
    if OwnAccounts(a, tenant) == OwnAccounts(b, tenant) {
      forall x: PlatformAccount | x.tenant == tenant ensures x in a <==> x in b {
        assert x in OwnAccounts(a, tenant) <==> x in OwnAccounts(b, tenant);
      }
    }
  }

  // ---- What a fault leaves ----

  /** An attempt that stops, however it does, gives the lock back if it has it, and no other attempt moves. */
  ghost predicate Stopped(w: World, x: World, p: int) {
    && x.holder == (if w.holder == Some(p) then None else w.holder)
    && x.db == w.db && x.accounts == w.accounts && x.pending == w.pending
    && (forall q :: q != p ==> (q in x.attempts <==> q in w.attempts))
    && forall q :: q in x.attempts && q != p ==> x.attempts[q] == w.attempts[q]
  }

  lemma CrashOutcome(w: World, p: int)
    ensures var x := Step(w, Crash(p)); Stopped(w, x, p) && p !in x.attempts && x.status == w.status
  {}

  /** An attempt that fails between taking the lock and returning marks the tenant FAILED where that write
      succeeds, and never once READY is written; a registration's own attempt has yet to write FAILED again. */
  lemma FaultOutcome(w: World, p: int, marked: bool)
    requires p in w.attempts && w.attempts[p].stage != Failing
    ensures var x, stage := Step(w, Fault(p, marked)), w.attempts[p].stage;
            var under := stage != Queued && !stage.Provisioned? && stage != AccountDone;
            && Stopped(w, x, p)
            && x.status == (if marked && under && stage != Holding then Failed else w.status)
            && (p in x.attempts <==> under && w.attempts[p].registering)
            && (p in x.attempts ==> x.attempts[p] == Attempt(true, w.attempts[p].seeds, Failing))
  {}

  /** ... which it does last, without the lock. */
  lemma LateMarkOutcome(w: World, p: int, marked: bool)
    requires p in w.attempts && w.attempts[p].stage == Failing
    ensures var x := Step(w, LateMark(p)); Stopped(w, x, p) && p !in x.attempts && x.status == Failed
    ensures Step(w, Fault(p, marked)) == w
  {}

  lemma ReadyOutcome(w: World, p: int)
    requires p in w.attempts && (w.attempts[p].stage.Synced? || (w.attempts[p].stage == SchemaDone && !w.attempts[p].seeds))
    ensures var x := Step(w, MarkReady(p));
            && Stopped(w, x, p) && x.status == Ready
            && (p in x.attempts <==> w.attempts[p].stage.Synced?)
            && (p in x.attempts ==> x.attempts[p] == w.attempts[p].(stage := Provisioned(w.attempts[p].stage.id)))
  {}
}
