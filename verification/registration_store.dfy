/** The registration and code handlers as the code runs them, one request at a time. */
module RegistrationStore {
  import opened Base
  import opened Text
  import opened Registration

  datatype Fault = NoFault | ReadFails | WriteFails

  /** What a verifier with this code's hash does to the tables, where `code` is the newest usable one. */
  function EmailOutcome(w: World, reg: int, hash: string, code: int, tenant: string, now: int, fault: Fault): World
    requires reg in w.pending && code in w.codes
  {
    if w.codes[code].attempts >= MAX_ATTEMPTS || fault == WriteFails then w
    else if hash != w.codes[code].hash then Missed(w, code, OfRegistration(reg), now)
    else SignUp(w, reg, w.pending[reg], code, tenant, now)
  }

  function PhoneOutcome(w: World, account: int, hash: string, code: int, now: int, fault: Fault): World
    requires code in w.codes
  {
    if w.codes[code].attempts >= MAX_ATTEMPTS || fault == WriteFails then w
    else if hash != w.codes[code].hash then Missed(w, code, OfAccount(account), now)
    else VerifyPhone(w, account, code, now)
  }

  class Tables {
    var pending: map<int, Pending>
    var codes: map<int, Code>
    var companies: map<string, string>
    var trials: set<string>
    var registry: map<string, string>
    var phones: set<int>
    var plans: set<string>
    var nextId: int
    ghost var emails: map<int, string>
    ghost var signups: seq<Signup>
    ghost var spent: seq<int>

    ghost function State(): World
      reads this
    {
      World(pending, codes, companies, trials, registry, phones, plans, nextId, map[], emails, signups, spent)
    }

    /** SELECT ... ORDER BY id DESC LIMIT 1 */
    method NewestCode(owner: Owner, now: int) returns (code: Option<int>)
      ensures code.Some? ==> Newest(State(), code.value, owner, now)
      ensures code.None? ==> forall k :: k in codes ==> !Usable(codes[k], owner, now)
    {
      code := None;
      var todo := codes.Keys;
      while todo != {}
        invariant todo <= codes.Keys
        invariant code.Some? ==> code.value in codes && Usable(codes[code.value], owner, now)
        invariant forall k :: k in codes && k !in todo && Usable(codes[k], owner, now) ==> code.Some? && k <= code.value
        decreases |todo|
      {
        assert (forall k :: k !in todo) ==> todo == {};
        var k :| k in todo;
        if Usable(codes[k], owner, now) && (code.None? || code.value < k) { code := Some(k); }
        todo := todo - {k};
      }
    }

    /** The guarded attempts update of a wrong code. */
    method CountAttempt(code: int, owner: Owner, now: int)
      modifies this`codes
      ensures State() == Missed(old(State()), code, owner, now)
    {
      if code in codes && Usable(codes[code], owner, now) && codes[code].attempts < MAX_ATTEMPTS {
        codes := codes[code := codes[code].(attempts := codes[code].attempts + 1)];
      }
    }

    method Enroll(reg: int, row: Pending, code: int, tenant: string)
      requires code in codes
      modifies this
      ensures State() == Enrolled(old(State()), reg, row, code, tenant)
    {
      companies := companies[tenant := row.company];
      trials := trials + {tenant};
      codes := codes[code := codes[code].(consumed := true)];
      spent := spent + [code];
      if reg in pending { pending := pending[reg := pending[reg].(verified := true)]; }
      registry := registry[row.email := tenant];
      signups := signups + [Signup(reg, row.email, code, tenant)];
    }

    /** The sign-up transaction; a refused statement leaves the tables as they were. */
    method CommitSignUp(reg: int, row: Pending, code: int, tenant: string, now: int)
      modifies this
      ensures State() == SignUp(old(State()), reg, row, code, tenant, now)
    {
      hide CompanyTaken, Enrolled;
      if CompanyTaken(companies, row.company) { return; }
      if tenant in companies || row.plan !in plans { return; }
      if code !in codes || codes[code].consumed || codes[code].expires <= now { return; }
      if row.email in registry { return; }
      Enroll(reg, row, code, tenant);
    }

    method VerifyRegistrationEmail(reg: int, hash: string, tenant: string, now: int, fault: Fault)
      modifies this
      ensures forall code :: reg in old(pending) && !old(pending)[reg].verified && now <= old(pending)[reg].expires
                             && Newest(old(State()), code, OfRegistration(reg), now) && fault != ReadFails ==>
                State() == EmailOutcome(old(State()), reg, hash, code, tenant, now, fault)
      ensures (reg !in old(pending) || old(pending)[reg].verified || now > old(pending)[reg].expires || fault == ReadFails
               || forall k :: k in old(codes) ==> !Usable(old(codes)[k], OfRegistration(reg), now)) ==> State() == old(State())
    {
      hide SignUp, Missed;
      if fault == ReadFails || reg !in pending || pending[reg].verified { return; }
      var row := pending[reg];
      if now > row.expires { return; }
      var code := NewestCode(OfRegistration(reg), now);
      if code.None? || codes[code.value].attempts >= MAX_ATTEMPTS || fault == WriteFails { return; }
      if hash != codes[code.value].hash {
        CountAttempt(code.value, OfRegistration(reg), now);
        return;
      }
      CommitSignUp(reg, row, code.value, tenant, now);
    }

    method VerifyPhoneVerificationCode(account: int, hash: string, now: int, fault: Fault)
      modifies this
      ensures forall code :: Newest(old(State()), code, OfAccount(account), now) && fault != ReadFails ==>
                State() == PhoneOutcome(old(State()), account, hash, code, now, fault)
      ensures fault == ReadFails ==> State() == old(State())
      ensures (forall k :: k in old(codes) ==> !Usable(old(codes)[k], OfAccount(account), now)) ==> State() == old(State())
    {
      hide Missed;
      if fault == ReadFails { return; }
      var found := NewestCode(OfAccount(account), now);
      if found.None? { return; }
      var code := found.value;
      if codes[code].attempts >= MAX_ATTEMPTS || fault == WriteFails { return; }
      if hash != codes[code].hash {
        CountAttempt(code, OfAccount(account), now);
        return;
      }
      if Usable(codes[code], OfAccount(account), now) && codes[code].attempts < MAX_ATTEMPTS {
        codes := codes[code := codes[code].(consumed := true)];
        spent := spent + [code];
        phones := phones + {account};
      }
    }

    method StartRegistration(email: string, company: string, plan: string, now: int, expires: int) returns (reg: Option<int>)
      modifies this
      ensures State() == Start(old(State()), email, company, plan, now, expires)
      ensures reg.Some? <==> State() != old(State())
      ensures reg.Some? ==> reg.value in pending && pending[reg.value] == Pending(Normalized(email), Trim(company), plan, expires, false)
    {
      hide Trim, ToLower;
      var e, name := Trim(ToLower(email)), Trim(company);
      if e == "" || name == "" || plan !in plans { return None; }
      var kept := Unstale(pending, e, now);
      if exists k :: k in kept && ToLower(kept[k].email) == ToLower(e) { return None; }
      pending := kept[nextId := Pending(e, name, plan, expires, false)];
      emails := emails[nextId := e];
      reg := Some(nextId);
      nextId := nextId + 1;
    }

    /** A code whose message could not be delivered is taken back. */
    method SendPhoneVerificationCode(account: int, hash: string, now: int, delivered: bool)
      modifies this
      ensures var sent := Step(Step(old(State()), ClearCodes(OfAccount(account))), AddCode(OfAccount(account), hash, now + CODE_LIFETIME));
              State() == if delivered then sent else Step(sent, RemoveCode(old(nextId)))
    {
      codes := map k | k in codes && !(codes[k].owner == OfAccount(account) && !codes[k].consumed) :: codes[k];
      var id := nextId;
      codes := codes[id := Code(OfAccount(account), hash, 0, now + CODE_LIFETIME, false)];
      nextId := nextId + 1;
      if !delivered { codes := codes - {id}; }
    }
  }

  /** Ten minutes. */
  const CODE_LIFETIME := 600
}
