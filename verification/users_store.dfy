/** The user-management handlers as the code runs them, one statement at a time. */
module UserStore {
  import opened Base
  import opened Text
  import opened Users

  class TwoDatabases {
    var users: map<int, Person>
    var accounts: map<int, Link>
    var foreign: set<string>
    var nextId: int

    function Tables(): State
      reads this
    {
      State(users, accounts, foreign, nextId)
    }

    /** UPDATE users, or INSERT with a given id; false where the unique index refuses the address. */
    method WritePerson(id: int, u: Person) returns (ok: bool)
      modifies this`users
      ensures ok <==> PutPerson(old(Tables()), id, u).Some?
      ensures Tables() == if ok then PutPerson(old(Tables()), id, u).value else old(Tables())
    {
      hide EmailFree;
      ok := EmailFree(users, id, u.email);
      if ok { users := users[id := u]; }
    }

    method WriteLink(id: int, l: Link) returns (ok: bool)
      modifies this`accounts
      ensures ok <==> PutLink(old(Tables()), id, l).Some?
      ensures Tables() == if ok then PutLink(old(Tables()), id, l).value else old(Tables())
    {
      hide AddressFree;
      ok := AddressFree(Tables(), id, l.email);
      if ok { accounts := accounts[id := l]; }
    }

    method CreateUser(r: Request, fault: Fault)
      requires r.Create? && Fresh(Tables())
      modifies this
      ensures Tables() == Users.CreateUser(old(Tables()), r, fault)
    {
      hide PutPerson, PutLink, Trim, ToLower;
      var name, email := Trim(r.name), ToLower(Trim(r.email));
      if name == "" || email == "" || r.password == "" { return; }
      if r.role !in ROLES { return; }
      if fault == ReadFails || r.limit.None? { return; }
      if |users| >= r.limit.value { return; }
      var id := nextId;
      nextId := nextId + 1;
      if fault == TenantFails { return; }
      ghost var used := Tables();
      var ok := WritePerson(id, Person(name, email, r.password, r.role));
      if !ok { return; }
      ghost var put := Tables();
      PutPersonKeeps(used, id, Person(name, email, r.password, r.role));
      if fault.ControlFails? {
        if fault.undone { users := users - {id}; }
        return;
      }
      ok := WriteLink(id, Link(email, r.role));
      if !ok {
        users := users - {id};
        return;
      }
      PutLinkKeeps(put, id, Link(email, r.role));
      if fault.CommitFails? {
        accounts := accounts - {id};
        if fault.undone { users := users - {id}; }
      }
    }

    method UpdateUser(r: Request, fault: Fault)
      requires r.Update?
      modifies this
      ensures Tables() == Users.UpdateUser(old(Tables()), r, fault)
    {
      hide EmailFree, AddressFree, Trim, ToLower;
      if fault == ReadFails || r.id !in users { return; }
      var current := users[r.id];
      if current.role == "admin" { return; }
      if r.role != "" && r.role !in ROLES { return; }
      var name, email := Trim(r.name), ToLower(Trim(r.email));
      var u := current;
      if name != "" { u := u.(name := name); }
      if email != "" { u := u.(email := email); }
      if r.role != "" { u := u.(role := r.role); }
      if fault == TenantFails { return; }
      var ok := WritePerson(r.id, u);
      if !ok { return; }
      if fault.ControlFails? {
        if fault.undone { users := users[r.id := current]; }
        return;
      }
      if r.id in accounts {
        ok := WriteLink(r.id, Link(u.email, u.role));
        if !ok { users := users[r.id := current]; }
      }
    }

    method DeleteUser(r: Request, fault: Fault)
      requires r.Remove?
      modifies this
      ensures Tables() == Users.DeleteUser(old(Tables()), r, fault)
    {
      if fault == ReadFails || r.id !in users { return; }
      var current := users[r.id];
      if current.role == "admin" { return; }
      if fault == TenantFails { return; }
      users := users - {r.id};
      if fault.ControlFails? {
        if fault.undone { users := users[r.id := current]; }
        return;
      }
      accounts := accounts - {r.id};
    }
  }

  lemma PutPersonKeeps(s: State, id: int, u: Person)
    requires PutPerson(s, id, u).Some? && id !in s.users
    ensures var x := PutPerson(s, id, u).value; x.(users := x.users - {id}) == s && x.users == s.users[id := u] && x == s.(users := x.users)
  {}

  lemma PutLinkKeeps(s: State, id: int, l: Link)
    requires PutLink(s, id, l).Some? && id !in s.accounts
    ensures var x := PutLink(s, id, l).value; x.(accounts := x.accounts - {id}) == s
  {}
}
