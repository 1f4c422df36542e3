/** User management: every user lives in the tenant's own database and, as a platform account, in the
    control plane. The two are written one after the other and compensated when the second fails. */
module Users {
  import opened Base
  import opened Text

  datatype Person = Person(name: string, email: string, password: string, role: string)

  /** What the platform account says of a user. */
  datatype Link = Link(email: string, role: string)

  /** One tenant's users and accounts by user id; `foreign` holds the lower-cased addresses of every other
      tenant's accounts. */
  datatype State = State(users: map<int, Person>, accounts: map<int, Link>, foreign: set<string>, nextId: int)

  datatype Request =
    | Create(name: string, email: string, password: string, role: string, limit: Option<nat>)
    | Update(id: int, name: string, email: string, role: string)
    | Remove(id: int)

  /** The statement that fails; `undone` tells whether the compensation then succeeds. */
  datatype Fault = NoFault | ReadFails | TenantFails | ControlFails(undone: bool) | CommitFails(undone: bool)

  const ROLES := {"manager", "recruiter", "team_leader"}

  // ---- Single statements; None when a unique index refuses them ----

  predicate EmailFree(users: map<int, Person>, id: int, email: string) {
    forall k :: k in users && k != id ==> users[k].email != email
  }

  function PutPerson(s: State, id: int, u: Person): Option<State> {
    if EmailFree(s.users, id, u.email) then Some(s.(users := s.users[id := u])) else None
  }

  predicate AddressFree(s: State, id: int, email: string) {
    ToLower(email) !in s.foreign && forall k :: k in s.accounts && k != id ==> ToLower(s.accounts[k].email) != ToLower(email)
  }

  function PutLink(s: State, id: int, l: Link): Option<State> {
    if AddressFree(s, id, l.email) then Some(s.(accounts := s.accounts[id := l])) else None
  }

  // ---- The three requests ----

  function Clean(r: Request): Person
    requires r.Create?
  {
    Person(Trim(r.name), ToLower(Trim(r.email)), r.password, r.role)
  }

  predicate Acceptable(r: Request)
    requires r.Create?
  {
    Trim(r.name) != "" && ToLower(Trim(r.email)) != "" && r.password != "" && r.role in ROLES
  }

  /** The tail of `CreateUser`, from the INSERT into the tenant database. */
  function Insert(s: State, u: Person, fault: Fault): State {
    var used := s.(nextId := s.nextId + 1);
    var id, put := s.nextId, PutPerson(used, s.nextId, u);
    if put.None? then used
    else
      var linked := PutLink(put.value, id, Link(u.email, u.role));
      if fault.ControlFails? || linked.None? then
        (if fault.ControlFails? && !fault.undone then put.value else used)
      else if fault.CommitFails? then (if fault.undone then used else put.value)
      else linked.value
  }

  function CreateUser(s: State, r: Request, fault: Fault): State
    requires r.Create?
  {
    if !Acceptable(r) || fault == ReadFails || r.limit.None? || |s.users| >= r.limit.value then s
    else if fault == TenantFails then s.(nextId := s.nextId + 1)
    else Insert(s, Clean(r), fault)
  }

  /** The row an update writes: fields left blank keep their value. */
  function Updated(u: Person, r: Request): Person
    requires r.Update?
  {
    u.(name := if Trim(r.name) != "" then Trim(r.name) else u.name,
       email := if ToLower(Trim(r.email)) != "" then ToLower(Trim(r.email)) else u.email,
       role := if r.role != "" then r.role else u.role)
  }

  function UpdateUser(s: State, r: Request, fault: Fault): State
    requires r.Update?
  {
    if fault == ReadFails || r.id !in s.users || s.users[r.id].role == "admin" || (r.role != "" && r.role !in ROLES) then s
    else
      var u := Updated(s.users[r.id], r);
      var put := PutPerson(s, r.id, u);
      if fault == TenantFails || put.None? then s
      else if r.id !in s.accounts && !fault.ControlFails? then put.value
      else
        var linked := PutLink(put.value, r.id, Link(u.email, u.role));
        if fault.ControlFails? || linked.None? then (if fault.ControlFails? && !fault.undone then put.value else s) else linked.value
  }

  function DeleteUser(s: State, r: Request, fault: Fault): State
    requires r.Remove?
  {
    if fault == ReadFails || r.id !in s.users || s.users[r.id].role == "admin" || fault == TenantFails then s
    else
      var gone := s.(users := s.users - {r.id});
      if fault.ControlFails? then (if fault.undone then s else gone) else gone.(accounts := s.accounts - {r.id})
  }

  function Handle(s: State, r: Request, fault: Fault): State {
    match r
    case Create(_, _, _, _, _) => CreateUser(s, r, fault)
    case Update(_, _, _, _) => UpdateUser(s, r, fault)
    case Remove(_) => DeleteUser(s, r, fault)
  }

  function HandleAll(s: State, requests: seq<(Request, Fault)>): State
    decreases requests
  {
    if requests == [] then s else HandleAll(Handle(s, requests[0].0, requests[0].1), requests[1..])
  }

  // ---- Agreement ----

  predicate AgreeOn(s: State, id: int) {
    && (id in s.users <==> id in s.accounts)
    && (id in s.users ==> s.accounts[id] == Link(s.users[id].email, s.users[id].role))
  }

  ghost predicate Agree(s: State) { forall id :: AgreeOn(s, id) }

  /** Ids already given out stay below the sequence. */
  ghost predicate Fresh(s: State) { forall id :: id in s.users || id in s.accounts ==> id < s.nextId }

  /** The administrator with this id, in both databases. */
  function Admin(s: State, id: int): Option<(Person, Option<Link>)> {
    if id in s.users && s.users[id].role == "admin" then Some((s.users[id], Get(s.accounts, id))) else None
  }

  predicate Compensated(fault: Fault) { (fault.ControlFails? || fault.CommitFails?) ==> fault.undone }

  lemma NoOperationalAdmin()
    ensures "admin" !in ROLES && "admin" != ""
  {
    assert |"admin"| == 5 && |"manager"| == 7 && |"recruiter"| == 9 && |"team_leader"| == 11;
  }

  /** Both databases agree, ids are fresh, and these are the administrators. */
  ghost predicate Keeps(s: State, x: State) {
    Agree(x) && Fresh(x) && forall id :: Admin(x, id) == Admin(s, id)
  }

  lemma CreateKeeps(s: State, r: Request, fault: Fault)
    requires Agree(s) && Fresh(s) && r.Create? && Compensated(fault)
    ensures Keeps(s, CreateUser(s, r, fault))
  {
    NoOperationalAdmin();
    hide Trim, ToLower, EmailFree, AddressFree;
    var x := CreateUser(s, r, fault);
    forall id ensures AgreeOn(x, id) && (id in x.users || id in x.accounts ==> id < x.nextId) && Admin(x, id) == Admin(s, id) {
      assert AgreeOn(s, id);
    }
  }

  lemma UpdateKeeps(s: State, r: Request, fault: Fault)
    requires Agree(s) && Fresh(s) && r.Update? && Compensated(fault)
    ensures Keeps(s, UpdateUser(s, r, fault))
  {
    NoOperationalAdmin();
    hide Trim, ToLower, EmailFree, AddressFree;
    var x := UpdateUser(s, r, fault);
    assert AgreeOn(s, r.id);
    forall id ensures AgreeOn(x, id) && (id in x.users || id in x.accounts ==> id < x.nextId) && Admin(x, id) == Admin(s, id) {
      assert AgreeOn(s, id);
    }
  }

  lemma DeleteKeeps(s: State, r: Request, fault: Fault)
    requires Agree(s) && Fresh(s) && r.Remove? && Compensated(fault)
    ensures Keeps(s, DeleteUser(s, r, fault))
  {
    var x := DeleteUser(s, r, fault);
    forall id ensures AgreeOn(x, id) && (id in x.users || id in x.accounts ==> id < x.nextId) && Admin(x, id) == Admin(s, id) {
      assert AgreeOn(s, id);
    }
  }

  lemma HandleKeeps(s: State, r: Request, fault: Fault)
    requires Agree(s) && Fresh(s) && Compensated(fault)
    ensures Keeps(s, Handle(s, r, fault))
  {
    match r
    case Create(_, _, _, _, _) => CreateKeeps(s, r, fault);
    case Update(_, _, _, _) => UpdateKeeps(s, r, fault);
    case Remove(_) => DeleteKeeps(s, r, fault);
  }

  /** Requests handled one at a time, with a fault at any statement of any of them and compensation that
      succeeds: afterwards the tenant's users and its platform accounts agree on id, address and role, and
      the administrators of both are untouched. */
  lemma {:induction false} DatabasesAgree(s: State, requests: seq<(Request, Fault)>)
    requires Agree(s) && Fresh(s)
    requires forall i :: 0 <= i < |requests| ==> Compensated(requests[i].1)
    ensures Keeps(s, HandleAll(s, requests))
    decreases requests
  {
    hide Agree, Fresh, Handle;
    if requests != [] {
      HandleKeeps(s, requests[0].0, requests[0].1);
      DatabasesAgree(Handle(s, requests[0].0, requests[0].1), requests[1..]);
    }
  }

  lemma CreatedIn(s: State, r: Request)
    requires Fresh(s) && r.Create? && s.nextId in CreateUser(s, r, NoFault).users
    ensures Clean(r).role != "admin"
    ensures CreateUser(s, r, NoFault)
            == s.(users := s.users[s.nextId := Clean(r)],
                  accounts := s.accounts[s.nextId := Link(Clean(r).email, Clean(r).role)],
                  nextId := s.nextId + 1)
  {
    NoOperationalAdmin();
    hide Trim, ToLower, EmailFree, AddressFree;
  }

  /** Deleting a user just created restores both databases; only its id stays used up. */
  lemma CreateThenDelete(s: State, r: Request)
    requires Fresh(s) && r.Create?
    ensures var x := Handle(s, r, NoFault);
            s.nextId in x.users ==> Handle(x, Remove(s.nextId), NoFault) == s.(nextId := s.nextId + 1)
  {
    if s.nextId in CreateUser(s, r, NoFault).users {
      CreatedIn(s, r);
      PutThenDrop(s.users, s.nextId, Clean(r));
      PutThenDrop(s.accounts, s.nextId, Link(Clean(r).email, Clean(r).role));
    }
    hide CreateUser, Clean, Fresh;
  }

  lemma PutThenDrop<V>(m: map<int, V>, id: int, v: V)
    requires id !in m
    ensures m[id := v] - {id} == m
  {}

  /** The unique indexes on addresses, in both planes. */
  ghost predicate UniqueAddresses(s: State) {
    (forall id :: id in s.users ==> EmailFree(s.users, id, s.users[id].email))
    && forall id :: id in s.accounts ==> AddressFree(s, id, s.accounts[id].email)
  }

  /** Values an update would write as they are. */
  predicate Plain(u: Person) {
    u.name != "" && u.email != "" && u.role in ROLES && Trim(u.name) == u.name && ToLower(Trim(u.email)) == u.email
  }

  /** Updating a user and then giving back the old name, address and role restores both databases. */
  lemma UpdateCanBeUndone(s: State, r: Request)
    requires Agree(s) && UniqueAddresses(s) && r.Update? && r.id in s.users && Plain(s.users[r.id])
    ensures var u := s.users[r.id];
            Handle(Handle(s, r, NoFault), Update(r.id, u.name, u.email, u.role), NoFault) == s
  {
    NoOperationalAdmin();
    assert AgreeOn(s, r.id);
    var u, x := s.users[r.id], Handle(s, r, NoFault);
    var back := Update(r.id, u.name, u.email, u.role);
    hide Trim, ToLower;
    var v := Updated(u, r);
    assert x != s ==> x.users == s.users[r.id := v] && x.accounts == s.accounts[r.id := Link(v.email, v.role)];
    assert r.id in x.users && Updated(x.users[r.id], back) == u;
    assert EmailFree(x.users, r.id, u.email);
    assert AddressFree(x, r.id, u.email);
  }

  /** All that a failed request leaves behind is, at most, a used-up id. */
  lemma FailureLeavesNothing(s: State, r: Request, fault: Fault)
    requires Compensated(fault) && fault != NoFault && (fault.CommitFails? ==> r.Create?)
    ensures Handle(s, r, fault) == s.(nextId := Handle(s, r, fault).nextId)
  {
    hide Trim, ToLower, EmailFree, AddressFree;
  }

  /** Compensation is needed: where the second write fails and so does its compensation, the databases
      disagree about exactly that user. */
  lemma UncompensatedCreateDisagrees(s: State, r: Request)
    requires Agree(s) && Fresh(s) && r.Create? && Acceptable(r) && r.limit.Some? && |s.users| < r.limit.value
    requires EmailFree(s.users, s.nextId, Clean(r).email)
    ensures var x := Handle(s, r, ControlFails(false)); !AgreeOn(x, s.nextId) && forall id :: id != s.nextId ==> AgreeOn(x, id)
  {
    hide Trim, ToLower, EmailFree, AddressFree;
    var x := Handle(s, r, ControlFails(false));
    assert x.users == s.users[s.nextId := Clean(r)] && x.accounts == s.accounts;
    assert AgreeOn(s, s.nextId);
    forall id | id != s.nextId ensures AgreeOn(x, id) { assert AgreeOn(s, id); }
  }

  // ---- What a request leaves, told from what it asks ----

  /** Nobody but this user has the address, in either plane or with another tenant. */
  ghost predicate AddressUnused(s: State, id: int, email: string) {
    && (forall k :: k in s.users && k != id ==> s.users[k].email != email)
    && (forall k :: k in s.accounts && k != id ==> ToLower(s.accounts[k].email) != ToLower(email))
    && ToLower(email) !in s.foreign
  }

  predicate OfferedRole(role: string) { role == "manager" || role == "recruiter" || role == "team_leader" }

  lemma OfferedRoles(role: string)
    ensures role in ROLES <==> OfferedRole(role)
  {}

  function Otherwise(given: string, stored: string): string { if given != "" then given else stored }

  /** An update stores the trimmed name, the trimmed lower-case address and the role, wherever these are not
      blank, in the users table, and address and role in the platform account; everything else stays. */
  lemma UpdateOutcome(s: State, id: int, name: string, email: string, role: string)
    requires id in s.users && s.users[id].role != "admin" && (role == "" || OfferedRole(role))
    requires AddressUnused(s, id, Otherwise(ToLower(Trim(email)), s.users[id].email))
    ensures var x, was := Handle(s, Update(id, name, email, role), NoFault), s.users[id];
            var address, given := Otherwise(ToLower(Trim(email)), was.email), Otherwise(role, was.role);
            && x.users == s.users[id := Person(Otherwise(Trim(name), was.name), address, was.password, given)]
            && x.accounts == (if id in s.accounts then s.accounts[id := Link(address, given)] else s.accounts)
            && x.foreign == s.foreign && x.nextId == s.nextId
  {
    OfferedRoles(role);
    hide Trim, ToLower;
    assert EmailFree(s.users, id, Otherwise(ToLower(Trim(email)), s.users[id].email));
    assert AddressFree(s, id, Otherwise(ToLower(Trim(email)), s.users[id].email));
  }

  /** An update of the administrator, of nobody, to a role that is not offered or to an address in use changes
      nothing. */
  lemma UpdateIsRefused(s: State, id: int, name: string, email: string, role: string)
    requires id !in s.users || s.users[id].role == "admin" || (role != "" && !OfferedRole(role))
             || (id in s.accounts && !AddressUnused(s, id, Otherwise(ToLower(Trim(email)), s.users[id].email)))
    ensures Handle(s, Update(id, name, email, role), NoFault) == s
  {
    OfferedRoles(role);
    hide Trim, ToLower;
  }

  /** A creation with room left enters the user under the next id in both planes ... */
  lemma CreationOutcome(s: State, name: string, email: string, password: string, role: string, limit: nat)
    requires s.nextId !in s.users && s.nextId !in s.accounts
    requires Trim(name) != "" && ToLower(Trim(email)) != "" && password != "" && OfferedRole(role) && |s.users| < limit
    requires AddressUnused(s, s.nextId, ToLower(Trim(email)))
    ensures var x, address := Handle(s, Create(name, email, password, role, Some(limit)), NoFault), ToLower(Trim(email));
            && x.users == s.users[s.nextId := Person(Trim(name), address, password, role)]
            && x.accounts == s.accounts[s.nextId := Link(address, role)]
            && x.foreign == s.foreign && x.nextId == s.nextId + 1
  {
    OfferedRoles(role);
    hide Trim, ToLower;
    assert EmailFree(s.users, s.nextId, ToLower(Trim(email)));
  }

  /** ... and otherwise enters nobody. */
  lemma CreationIsRefused(s: State, name: string, email: string, password: string, role: string, limit: Option<nat>)
    requires Trim(name) == "" || ToLower(Trim(email)) == "" || password == "" || !OfferedRole(role)
             || limit.None? || |s.users| >= limit.value || !AddressUnused(s, s.nextId, ToLower(Trim(email)))
    ensures var x := Handle(s, Create(name, email, password, role, limit), NoFault);
            x.users == s.users && x.accounts == s.accounts && x.foreign == s.foreign
  {
    OfferedRoles(role);
    hide Trim, ToLower;
  }

  /** A removal takes a user who is not the administrator out of both planes, and nobody else. */
  lemma RemovalOutcome(s: State, id: int)
    ensures var x := Handle(s, Remove(id), NoFault);
            if id in s.users && s.users[id].role != "admin"
            then x.users == s.users - {id} && x.accounts == s.accounts - {id} && x.foreign == s.foreign && x.nextId == s.nextId
            else x == s
  {}

  // ---- What a failing request leaves ----

  /** A creation that fails has used up its id once the INSERT was tried, and leaves the user without an account
      exactly where the second write fails and cannot be undone. */
  lemma FaultedCreation(s: State, name: string, email: string, password: string, role: string, limit: nat, undone: bool)
    requires s.nextId !in s.users && s.nextId !in s.accounts
    requires Trim(name) != "" && ToLower(Trim(email)) != "" && password != "" && OfferedRole(role) && |s.users| < limit
    requires AddressUnused(s, s.nextId, ToLower(Trim(email)))
    ensures var r, used := Create(name, email, password, role, Some(limit)), s.(nextId := s.nextId + 1);
            var left := if undone then used else used.(users := s.users[s.nextId := Person(Trim(name), ToLower(Trim(email)), password, role)]);
            && Handle(s, r, ReadFails) == s && Handle(s, r, TenantFails) == used
            && Handle(s, r, ControlFails(undone)) == left && Handle(s, r, CommitFails(undone)) == left
  {
    OfferedRoles(role);
    hide Trim, ToLower;
    assert EmailFree(s.users, s.nextId, ToLower(Trim(email)));
  }

  lemma FaultedUpdate(s: State, id: int, name: string, email: string, role: string, undone: bool)
    requires id in s.users && s.users[id].role != "admin" && (role == "" || OfferedRole(role))
    requires AddressUnused(s, id, Otherwise(ToLower(Trim(email)), s.users[id].email))
    ensures var r, was := Update(id, name, email, role), s.users[id];
            var u := Person(Otherwise(Trim(name), was.name), Otherwise(ToLower(Trim(email)), was.email), was.password, Otherwise(role, was.role));
            && Handle(s, r, ReadFails) == s && Handle(s, r, TenantFails) == s
            && Handle(s, r, ControlFails(undone)) == if undone then s else s.(users := s.users[id := u])
  {
    OfferedRoles(role);
    hide Trim, ToLower;
    assert EmailFree(s.users, id, Otherwise(ToLower(Trim(email)), s.users[id].email));
  }

  lemma FaultedRemoval(s: State, id: int, undone: bool)
    requires id in s.users && s.users[id].role != "admin"
    ensures Handle(s, Remove(id), ReadFails) == s && Handle(s, Remove(id), TenantFails) == s
    ensures Handle(s, Remove(id), ControlFails(undone)) == if undone then s else s.(users := s.users - {id})
  {}

  /** Requests are handled in turn. */
  lemma {:induction false} HandledInTurn(s: State, requests: seq<(Request, Fault)>, r: Request, fault: Fault)
    ensures HandleAll(s, requests + [(r, fault)]) == Handle(HandleAll(s, requests), r, fault)
    decreases requests
  {
    hide Handle;
    if requests == [] {
      assert HandleAll(Handle(s, r, fault), []) == Handle(s, r, fault);
    } else {
      assert (requests + [(r, fault)])[1..] == requests[1..] + [(r, fault)];
      HandledInTurn(Handle(s, requests[0].0, requests[0].1), requests[1..], r, fault);
    }
  }
}
