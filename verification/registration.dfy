/** Registration and one-time codes: any number of sign-ups and verifiers at once, one statement or
    transaction a step. */
module Registration {
  import opened Base
  import opened Text

  datatype Pending = Pending(email: string, company: string, plan: string, expires: int, verified: bool)

  datatype Owner = OfRegistration(reg: int) | OfAccount(account: int)

  /** `hash` stands for the keyed hash of the code. */
  datatype Code = Code(owner: Owner, hash: string, attempts: nat, expires: int, consumed: bool)

  /** What one verification request holds between two statements. */
  datatype Call =
    | HasRow(reg: int, hash: string, row: Pending)
    | HasCode(reg: int, row: Pending, code: int, matching: bool)
    | HasPhoneCode(account: int, code: int, matching: bool)

  /** A committed sign-up. */
  datatype Signup = Signup(reg: int, email: string, code: int, tenant: string)

  /** `emails` remembers the address of every registration ever made, `signups` the committed ones, `spent`
      every code as it is consumed. */
  datatype World = World(
    pending: map<int, Pending>,
    codes: map<int, Code>,
    companies: map<string, string>,
    trials: set<string>,
    registry: map<string, string>,
    phones: set<int>,
    plans: set<string>,
    nextId: int,
    calls: map<int, Call>,
    emails: map<int, string>,
    signups: seq<Signup>,
    spent: seq<int>)

  const MAX_ATTEMPTS := 5

  datatype Action =
    | Register(email: string, company: string, plan: string, now: int, expires: int)
    | ClearCodes(owner: Owner)
    | AddCode(owner: Owner, hash: string, expires: int)
    | RemoveCode(code: int)
    | RemovePending(reg: int)
    | ReadRow(p: int, reg: int, hash: string, now: int)
    | ReadCode(p: int, code: int, now: int)
    | ReadPhoneCode(p: int, account: int, hash: string, code: int, now: int)
    | Miss(p: int, now: int)
    | Complete(p: int, tenant: string, now: int)
    | CompletePhone(p: int, now: int)
    | Quit(p: int)
    | SetPlans(plans: set<string>)

  // ---- Statements ----

  function Normalized(email: string): string { Trim(ToLower(email)) }

  predicate Usable(c: Code, owner: Owner, now: int) { c.owner == owner && !c.consumed && c.expires > now }

  /** The newest usable code of its owner. */
  predicate Newest(w: World, code: int, owner: Owner, now: int) {
    code in w.codes && Usable(w.codes[code], owner, now)
    && forall k :: k in w.codes && Usable(w.codes[k], owner, now) ==> k <= code
  }

  /** An unverified row of this address whose time is over. */
  predicate Stale(row: Pending, email: string, now: int) {
    row.expires <= now && !row.verified && ToLower(row.email) == ToLower(email)
  }

  function Unstale(pending: map<int, Pending>, email: string, now: int): map<int, Pending> {
    map k | k in pending && !Stale(pending[k], email, now) :: pending[k]
  }

  /** The registration transaction of `StartRegistration`: stale unverified rows of the address go, and the
      address must then be free. */
  function Start(w: World, email: string, company: string, plan: string, now: int, expires: int): World {
    var e := Normalized(email);
    if e == "" || Trim(company) == "" || plan !in w.plans then w
    else
      var kept := Unstale(w.pending, e, now);
      if exists k :: k in kept && ToLower(kept[k].email) == ToLower(e) then w
      else w.(pending := kept[w.nextId := Pending(e, Trim(company), plan, expires, false)],
              emails := w.emails[w.nextId := e], nextId := w.nextId + 1)
  }

  function RemoveCodes(w: World, owner: Owner): World {
    w.(codes := map k | k in w.codes && !(w.codes[k].owner == owner && !w.codes[k].consumed) :: w.codes[k])
  }

  function Exit(w: World, p: int): World { w.(calls := w.calls - {p}) }

  /** UPDATE ... SET attempts=attempts+1 WHERE ... AND attempts<5 */
  function Missed(w: World, code: int, owner: Owner, now: int): World {
    if code in w.codes && Usable(w.codes[code], owner, now) && w.codes[code].attempts < MAX_ATTEMPTS then
      w.(codes := w.codes[code := w.codes[code].(attempts := w.codes[code].attempts + 1)])
    else w
  }

  function Consume(w: World, code: int): World
    requires code in w.codes
  {
    w.(codes := w.codes[code := w.codes[code].(consumed := true)], spent := w.spent + [code])
  }

  predicate CompanyTaken(companies: map<string, string>, company: string) { exists t :: t in companies && companies[t] == company }

  /** Some statement of the sign-up transaction is refused. */
  predicate Blocked(w: World, row: Pending, code: int, tenant: string, now: int) {
    CompanyTaken(w.companies, row.company) || tenant in w.companies || row.plan !in w.plans
    || code !in w.codes || w.codes[code].consumed || w.codes[code].expires <= now || row.email in w.registry
  }

  function Enrolled(w: World, reg: int, row: Pending, code: int, tenant: string): World
    requires code in w.codes
  {
    Consume(w, code).(
      companies := w.companies[tenant := row.company], trials := w.trials + {tenant},
      pending := if reg in w.pending then w.pending[reg := w.pending[reg].(verified := true)] else w.pending,
      registry := w.registry[row.email := tenant],
      signups := w.signups + [Signup(reg, row.email, code, tenant)])
  }

  /** The sign-up transaction: tenant, trial, consumed code, verified row and registry row, or nothing. */
  function SignUp(w: World, reg: int, row: Pending, code: int, tenant: string, now: int): World {
    if Blocked(w, row, code, tenant, now) then w else Enrolled(w, reg, row, code, tenant)
  }

  function VerifyPhone(w: World, account: int, code: int, now: int): World {
    if code !in w.codes || !Usable(w.codes[code], OfAccount(account), now) || w.codes[code].attempts >= MAX_ATTEMPTS then w
    else Consume(w, code).(phones := w.phones + {account})
  }

  // ---- Steps ----

  function TakeRow(w: World, p: int, reg: int, hash: string, now: int): World {
    if p in w.calls || reg !in w.pending || w.pending[reg].verified || now > w.pending[reg].expires then w
    else w.(calls := w.calls[p := HasRow(reg, hash, w.pending[reg])])
  }

  function TakeCode(w: World, p: int, code: int, now: int): World {
    if p !in w.calls || !w.calls[p].HasRow? then w
    else
      var c := w.calls[p];
      if !Newest(w, code, OfRegistration(c.reg), now) || w.codes[code].attempts >= MAX_ATTEMPTS then Exit(w, p)
      else w.(calls := w.calls[p := HasCode(c.reg, c.row, code, c.hash == w.codes[code].hash)])
  }

  function TakePhoneCode(w: World, p: int, account: int, hash: string, code: int, now: int): World {
    if p in w.calls || !Newest(w, code, OfAccount(account), now) || w.codes[code].attempts >= MAX_ATTEMPTS then w
    else w.(calls := w.calls[p := HasPhoneCode(account, code, hash == w.codes[code].hash)])
  }

  function MissCall(w: World, p: int, now: int): World {
    if p !in w.calls || w.calls[p].HasRow? || w.calls[p].matching then w
    else
      var owner := if w.calls[p].HasCode? then OfRegistration(w.calls[p].reg) else OfAccount(w.calls[p].account);
      Exit(Missed(w, w.calls[p].code, owner, now), p)
  }

  function Step(w: World, a: Action): World {
    match a
    case Register(email, company, plan, now, expires) => Start(w, email, company, plan, now, expires)
    case ClearCodes(owner) => RemoveCodes(w, owner)
    case AddCode(owner, hash, expires) => w.(codes := w.codes[w.nextId := Code(owner, hash, 0, expires, false)], nextId := w.nextId + 1)
    case RemoveCode(code) => w.(codes := w.codes - {code})
    case RemovePending(reg) => w.(pending := w.pending - {reg})
    case ReadRow(p, reg, hash, now) => TakeRow(w, p, reg, hash, now)
    case ReadCode(p, code, now) => TakeCode(w, p, code, now)
    case ReadPhoneCode(p, account, hash, code, now) => TakePhoneCode(w, p, account, hash, code, now)
    case Miss(p, now) => MissCall(w, p, now)
    case Complete(p, tenant, now) =>
      if p in w.calls && w.calls[p].HasCode? && w.calls[p].matching then
        Exit(SignUp(w, w.calls[p].reg, w.calls[p].row, w.calls[p].code, tenant, now), p)
      else w
    case CompletePhone(p, now) =>
      if p in w.calls && w.calls[p].HasPhoneCode? && w.calls[p].matching then
        Exit(VerifyPhone(w, w.calls[p].account, w.calls[p].code, now), p)
      else w
    case Quit(p) => Exit(w, p)
    case SetPlans(plans) => w.(plans := plans)
  }

  function Run(w: World, actions: seq<Action>): World
    decreases actions
  {
    if actions == [] then w else Run(Step(w, actions[0]), actions[1..])
  }

  // ---- What every run keeps ----

  /** Everything already named is below the sequence, so ids are never given out twice. */
  ghost predicate Fresh(codes: map<int, Code>, pending: map<int, Pending>, emails: map<int, string>, spent: seq<int>, nextId: int) {
    (forall k :: k in codes || k in pending || k in emails ==> k < nextId) && forall i :: 0 <= i < |spent| ==> spent[i] < nextId
  }

  ghost predicate AttemptsBounded(codes: map<int, Code>) { forall k :: k in codes ==> codes[k].attempts <= MAX_ATTEMPTS }

  predicate Spent(codes: map<int, Code>, code: int) { code in codes ==> codes[code].consumed }

  /** No code is consumed twice. */
  ghost predicate SpentOnce(codes: map<int, Code>, spent: seq<int>) {
    (forall i :: 0 <= i < |spent| ==> Spent(codes, spent[i])) && forall i, j :: 0 <= i < j < |spent| ==> spent[i] != spent[j]
  }

  /** A registration keeps its address in the table, in every request that read it and in its sign-up. */
  ghost predicate RowsKept(pending: map<int, Pending>, emails: map<int, string>) {
    forall k :: k in pending ==> k in emails && emails[k] == pending[k].email
  }

  ghost predicate CallsKept(calls: map<int, Call>, emails: map<int, string>) {
    forall p :: p in calls && !calls[p].HasPhoneCode? ==> calls[p].reg in emails && emails[calls[p].reg] == calls[p].row.email
  }

  ghost predicate SignupsKept(signups: seq<Signup>, emails: map<int, string>) {
    forall i :: 0 <= i < |signups| ==> signups[i].reg in emails && emails[signups[i].reg] == signups[i].email
  }

  predicate ByTenant(signups: seq<Signup>, t: string) { exists i :: 0 <= i < |signups| && signups[i].tenant == t }

  predicate ByEmail(signups: seq<Signup>, e: string) { exists i :: 0 <= i < |signups| && signups[i].email == e }

  ghost predicate AllThere(trials: set<string>, registry: map<string, string>, signups: seq<Signup>, spent: seq<int>) {
    forall i :: 0 <= i < |signups| ==>
      && signups[i].email in registry && registry[signups[i].email] == signups[i].tenant
      && signups[i].tenant in trials && signups[i].code in spent
  }

  ghost predicate NothingElse(trials: set<string>, registry: map<string, string>, signups: seq<Signup>) {
    (forall t :: t in trials ==> ByTenant(signups, t)) && forall e :: e in registry ==> ByEmail(signups, e)
  }

  /** Tenant, trial, registry row and consumed code come together: the tables hold exactly the sign-ups. */
  ghost predicate Together(companies: map<string, string>, trials: set<string>, registry: map<string, string>,
                           signups: seq<Signup>, spent: seq<int>)
  {
    trials == companies.Keys && AllThere(trials, registry, signups, spent) && NothingElse(trials, registry, signups)
  }

  ghost predicate OneEach(signups: seq<Signup>) {
    forall i, j :: 0 <= i < j < |signups| ==> signups[i].email != signups[j].email && signups[i].tenant != signups[j].tenant
  }

  ghost predicate Sound(w: World) {
    && Fresh(w.codes, w.pending, w.emails, w.spent, w.nextId) && AttemptsBounded(w.codes) && SpentOnce(w.codes, w.spent)
    && RowsKept(w.pending, w.emails) && CallsKept(w.calls, w.emails) && SignupsKept(w.signups, w.emails)
    && Together(w.companies, w.trials, w.registry, w.signups, w.spent) && OneEach(w.signups)
  }

  lemma StartKeepsSound(w: World, email: string, company: string, plan: string, now: int, expires: int)
    requires Sound(w)
    ensures Sound(Start(w, email, company, plan, now, expires))
  {
    hide Normalized, Trim, ToLower, Together, OneEach, SpentOnce, AttemptsBounded;
    var x := Start(w, email, company, plan, now, expires);
    if x != w {
      EmailsGrow(w, x.emails[w.nextId]);
      assert x.pending.Keys <= w.pending.Keys + {w.nextId};
      hide CallsKept, SignupsKept;
    }
  }

  /** Codes may go at any time: what is spent stays spent. */
  lemma FewerCodesKeepSound(w: World, codes: map<int, Code>)
    requires Sound(w) && forall k :: k in codes ==> k in w.codes && codes[k] == w.codes[k]
    ensures Sound(w.(codes := codes))
  {}

  lemma AddCodeKeepsSound(w: World, c: Code)
    requires Sound(w) && c.attempts == 0
    ensures Sound(w.(codes := w.codes[w.nextId := c], nextId := w.nextId + 1))
  {}

  lemma CallsKeepSound(w: World, calls: map<int, Call>)
    requires Sound(w) && CallsKept(calls, w.emails)
    ensures Sound(w.(calls := calls))
  {}

  lemma ConsumeKeeps(w: World, code: int)
    requires Sound(w) && code in w.codes && !w.codes[code].consumed
    ensures var x := Consume(w, code);
            Fresh(x.codes, x.pending, x.emails, x.spent, x.nextId) && AttemptsBounded(x.codes) && SpentOnce(x.codes, x.spent)
  {}

  lemma PhoneKeepsSound(w: World, account: int, code: int, now: int)
    requires Sound(w)
    ensures Sound(VerifyPhone(w, account, code, now))
  {}

  lemma OneMore(trials: set<string>, registry: map<string, string>, signups: seq<Signup>, spent: seq<int>, s: Signup)
    requires OneEach(signups) && s.email !in registry && s.tenant !in trials
    requires AllThere(trials, registry, signups, spent)
    ensures OneEach(signups + [s])
  {}

  lemma AllThereGrows(trials: set<string>, registry: map<string, string>, signups: seq<Signup>, spent: seq<int>, s: Signup)
    requires AllThere(trials, registry, signups, spent) && s.email !in registry
    ensures AllThere(trials + {s.tenant}, registry[s.email := s.tenant], signups + [s], spent + [s.code])
  {}

  lemma ByMore(signups: seq<Signup>, s: Signup)
    ensures forall t :: ByTenant(signups, t) || t == s.tenant ==> ByTenant(signups + [s], t)
    ensures forall e :: ByEmail(signups, e) || e == s.email ==> ByEmail(signups + [s], e)
  {
    var more := signups + [s];
    assert more[|signups|] == s && forall i :: 0 <= i < |signups| ==> more[i] == signups[i];
  }

  lemma TogetherGrows(companies: map<string, string>, trials: set<string>, registry: map<string, string>,
                      signups: seq<Signup>, spent: seq<int>, s: Signup, company: string)
    requires Together(companies, trials, registry, signups, spent) && s.email !in registry
    ensures Together(companies[s.tenant := company], trials + {s.tenant}, registry[s.email := s.tenant], signups + [s], spent + [s.code])
  {
    AllThereGrows(trials, registry, signups, spent, s);
    ByMore(signups, s);
    hide AllThere, ByTenant, ByEmail;
  }

  lemma SignupKept(signups: seq<Signup>, emails: map<int, string>, s: Signup)
    requires SignupsKept(signups, emails) && s.reg in emails && emails[s.reg] == s.email
    ensures SignupsKept(signups + [s], emails)
  {}

  lemma VerifiedRowKept(pending: map<int, Pending>, emails: map<int, string>, reg: int)
    requires RowsKept(pending, emails) && reg in pending
    ensures RowsKept(pending[reg := pending[reg].(verified := true)], emails)
  {}

  lemma SignUpKeepsSound(w: World, reg: int, row: Pending, code: int, tenant: string, now: int)
    requires Sound(w) && reg in w.emails && w.emails[reg] == row.email
    ensures var y := SignUp(w, reg, row, code, tenant, now); Sound(y) && y.calls == w.calls && y.emails == w.emails
  {
    hide CompanyTaken;
    var y, s := SignUp(w, reg, row, code, tenant, now), Signup(reg, row.email, code, tenant);
    if y != w {
      OneMore(w.trials, w.registry, w.signups, w.spent, s);
      TogetherGrows(w.companies, w.trials, w.registry, w.signups, w.spent, s, row.company);
      ConsumeKeeps(w, code);
      SignupKept(w.signups, w.emails, s);
      if reg in w.pending { VerifiedRowKept(w.pending, w.emails, reg); }
      FreshKeys(Consume(w, code), y.pending);
    }
    hide OneEach, Together, CallsKept, AttemptsBounded, SpentOnce, SignupsKept, RowsKept, Fresh;
  }

  lemma FreshKeys(w: World, pending: map<int, Pending>)
    requires Fresh(w.codes, w.pending, w.emails, w.spent, w.nextId) && pending.Keys <= w.pending.Keys + {w.nextId - 1}
    ensures Fresh(w.codes, pending, w.emails, w.spent, w.nextId)
  {}

  lemma EmailsGrow(w: World, e: string)
    requires Sound(w)
    ensures var more := w.emails[w.nextId := e]; CallsKept(w.calls, more) && SignupsKept(w.signups, more) && RowsKept(w.pending, more)
  {}

  lemma MissKeepsSound(w: World, p: int, now: int)
    requires Sound(w)
    ensures Sound(MissCall(w, p, now))
  {}

  lemma ExitKeepsSound(w: World, p: int)
    requires Sound(w)
    ensures Sound(Exit(w, p))
  {}

  lemma TakeRowKeepsSound(w: World, p: int, reg: int, hash: string, now: int)
    requires Sound(w)
    ensures Sound(TakeRow(w, p, reg, hash, now))
  {}

  lemma TakeCodeKeepsSound(w: World, p: int, code: int, now: int)
    requires Sound(w)
    ensures Sound(TakeCode(w, p, code, now))
  {
    assert CallsKept(w.calls, w.emails);
    CallsKeepSound(w, TakeCode(w, p, code, now).calls);
    hide Sound, Newest;
  }

  lemma TakePhoneCodeKeepsSound(w: World, p: int, account: int, hash: string, code: int, now: int)
    requires Sound(w)
    ensures Sound(TakePhoneCode(w, p, account, hash, code, now))
  {}

  lemma PendingShrinkKeepsSound(w: World, pending: map<int, Pending>)
    requires Sound(w) && forall k :: k in pending ==> k in w.pending && pending[k] == w.pending[k]
    ensures Sound(w.(pending := pending))
  {}

  lemma PlansKeepSound(w: World, plans: set<string>)
    requires Sound(w)
    ensures Sound(w.(plans := plans))
  {}

  lemma StepKeepsSound(w: World, a: Action)
    requires Sound(w)
    ensures Sound(Step(w, a))
  {
    assert CallsKept(w.calls, w.emails);
    hide Sound, Start, SignUp, VerifyPhone, MissCall, TakeRow, TakeCode, TakePhoneCode, Exit;
    match a
    case Register(email, company, plan, now, expires) => StartKeepsSound(w, email, company, plan, now, expires);
    case ClearCodes(owner) => FewerCodesKeepSound(w, RemoveCodes(w, owner).codes);
    case AddCode(owner, hash, expires) => AddCodeKeepsSound(w, Code(owner, hash, 0, expires, false));
    case RemoveCode(code) => FewerCodesKeepSound(w, w.codes - {code});
    case RemovePending(reg) => PendingShrinkKeepsSound(w, w.pending - {reg});
    case ReadRow(p, reg, hash, now) => TakeRowKeepsSound(w, p, reg, hash, now);
    case ReadCode(p, code, now) => TakeCodeKeepsSound(w, p, code, now);
    case ReadPhoneCode(p, account, hash, code, now) => TakePhoneCodeKeepsSound(w, p, account, hash, code, now);
    case Miss(p, now) => MissKeepsSound(w, p, now);
    case Complete(p, tenant, now) =>
      if p in w.calls && w.calls[p].HasCode? {
        var c := w.calls[p];
        SignUpKeepsSound(w, c.reg, c.row, c.code, tenant, now);
        ExitKeepsSound(SignUp(w, c.reg, c.row, c.code, tenant, now), p);
      }
    case CompletePhone(p, now) =>
      if p in w.calls && w.calls[p].HasPhoneCode? {
        PhoneKeepsSound(w, w.calls[p].account, w.calls[p].code, now);
        ExitKeepsSound(VerifyPhone(w, w.calls[p].account, w.calls[p].code, now), p);
      }
    case Quit(p) => ExitKeepsSound(w, p);
    case SetPlans(plans) => PlansKeepSound(w, plans);
  }

  lemma {:induction false} RunKeepsSound(w: World, actions: seq<Action>)
    requires Sound(w)
    ensures Sound(Run(w, actions))
    decreases actions
  {
    hide Sound, Step;
    if actions != [] {
      StepKeepsSound(w, actions[0]);
      RunKeepsSound(Step(w, actions[0]), actions[1..]);
    }
  }

  /** The tables before anyone has signed up. */
  function Empty(plans: set<string>): World { World(map[], map[], map[], {}, map[], {}, plans, 1, map[], map[], [], []) }

  /** In every interleaving of registrations and verifiers: no code counts more than five attempts, no code
      is consumed twice, no registration, address or tenant id signs up twice, and the tenants, trials and
      registry rows are exactly those of the committed sign-ups, each with its code consumed. */
  lemma SignUpsAreAtomicAndUnique(plans: set<string>, actions: seq<Action>)
    ensures var w := Run(Empty(plans), actions);
            && AttemptsBounded(w.codes)
            && SpentOnce(w.codes, w.spent)
            && Together(w.companies, w.trials, w.registry, w.signups, w.spent)
            && (forall i, j :: 0 <= i < j < |w.signups| ==>
                  && w.signups[i].reg != w.signups[j].reg && w.signups[i].email != w.signups[j].email
                  && w.signups[i].tenant != w.signups[j].tenant)
  {
    assert Sound(Empty(plans));
    RunKeepsSound(Empty(plans), actions);
    hide Run, Together, SpentOnce, AttemptsBounded, Fresh, RowsKept, CallsKept;
  }

  lemma RunThree(w: World, a: Action, b: Action, c: Action)
    ensures Run(w, [a, b, c]) == Step(Step(Step(w, a), b), c)
  {
    hide Step;
    assert [a, b, c][1..] == [b, c] && [b, c][1..] == [c] && [c][1..] == [];
    assert Run(Step(Step(w, a), b), [c]) == Step(Step(Step(w, a), b), c);
    assert Run(Step(w, a), [b, c]) == Run(Step(Step(w, a), b), [c]);
  }

  lemma ReadsReachCode(w: World, p: int, reg: int, code: int, now: int)
    requires p !in w.calls && reg in w.pending && !w.pending[reg].verified && now <= w.pending[reg].expires
    requires Newest(w, code, OfRegistration(reg), now) && w.codes[code].attempts < MAX_ATTEMPTS
    ensures Step(Step(w, ReadRow(p, reg, w.codes[code].hash, now)), ReadCode(p, code, now))
            == w.(calls := w.calls[p := HasCode(reg, w.pending[reg], code, true)])
  {}

  lemma CompletionSignsUpIff(x: World, p: int, row: Pending, reg: int, code: int, tenant: string, now: int)
    requires p in x.calls && x.calls[p] == HasCode(reg, row, code, true)
    requires code in x.codes && Usable(x.codes[code], OfRegistration(reg), now)
    ensures Step(x, Complete(p, tenant, now)).signups
            == (if !CompanyTaken(x.companies, row.company) && row.email !in x.registry && tenant !in x.companies && row.plan in x.plans
                then x.signups + [Signup(reg, row.email, code, tenant)] else x.signups)
  {}

  /** An undisturbed verifier with the right code signs its registration up exactly when the company, the
      address and the tenant id are unused and the plan is still offered. */
  lemma RightCodeSignsUpIff(w: World, p: int, reg: int, code: int, tenant: string, now: int)
    requires p !in w.calls && reg in w.pending && !w.pending[reg].verified && now <= w.pending[reg].expires
    requires Newest(w, code, OfRegistration(reg), now) && w.codes[code].attempts < MAX_ATTEMPTS
    ensures var row := w.pending[reg];
            var x := Run(w, [ReadRow(p, reg, w.codes[code].hash, now), ReadCode(p, code, now), Complete(p, tenant, now)]);
            x.signups == (if !CompanyTaken(w.companies, row.company) && row.email !in w.registry
                             && tenant !in w.companies && row.plan in w.plans
                          then w.signups + [Signup(reg, row.email, code, tenant)] else w.signups)
  {
    ReadsReachCode(w, p, reg, code, now);
    var x := w.(calls := w.calls[p := HasCode(reg, w.pending[reg], code, true)]);
    CompletionSignsUpIff(x, p, w.pending[reg], reg, code, tenant, now);
    assert CompanyTaken(x.companies, w.pending[reg].company) == CompanyTaken(w.companies, w.pending[reg].company);
    RunThree(w, ReadRow(p, reg, w.codes[code].hash, now), ReadCode(p, code, now), Complete(p, tenant, now));
    hide Run, Newest, Step, CompanyTaken;
  }

  lemma RunTwo(w: World, a: Action, b: Action)
    ensures Run(w, [a, b]) == Step(Step(w, a), b)
  {
    hide Step;
    assert [a, b][1..] == [b] && [b][1..] == [];
    assert Run(Step(w, a), [b]) == Step(Step(w, a), b);
  }

  // ---- Codes whose attempts are used up ----

  /** A sign-up that compared this code before and has nothing in its way but the plan. */
  predicate Poised(w: World, p: int, code: int) {
    && p in w.calls && w.calls[p].HasCode? && w.calls[p].code == code && w.calls[p].matching
    && !CompanyTaken(w.companies, w.calls[p].row.company) && w.calls[p].row.email !in w.registry
  }

  /** The time at which a statement that compares times is run. */
  function TimeOf(a: Action): Option<int> {
    match a
    case Register(_, _, _, now, _) => Some(now)
    case ReadRow(_, _, _, now) => Some(now)
    case ReadCode(_, _, now) => Some(now)
    case ReadPhoneCode(_, _, _, _, now) => Some(now)
    case Miss(_, now) => Some(now)
    case Complete(_, _, now) => Some(now)
    case CompletePhone(_, now) => Some(now)
    case _ => None
  }

  predicate NotBefore(a: Action, now: int) { TimeOf(a).Some? ==> now <= TimeOf(a).value }

  /** No statement of the continuation runs before this time. */
  ghost predicate From(actions: seq<Action>, now: int) { forall i :: 0 <= i < |actions| ==> NotBefore(actions[i], now) }

  /** The code's time is over, and it has not been consumed. */
  predicate Over(w: World, code: int, now: int) {
    code < w.nextId && code !in w.spent && (code in w.codes ==> w.codes[code].expires <= now)
  }

  lemma UseKeepsOver(w: World, a: Action, code: int, now: int)
    requires Over(w, code, now) && NotBefore(a, now) && (a.Miss? || a.Complete? || a.CompletePhone?)
    ensures Over(Step(w, a), code, now)
  {
    hide CompanyTaken;
  }

  lemma OtherKeepsOver(w: World, a: Action, code: int, now: int)
    requires Over(w, code, now) && !(a.Miss? || a.Complete? || a.CompletePhone?)
    ensures Over(Step(w, a), code, now)
  {
    hide Normalized, Trim, Newest, Stale, NotBefore;
  }

  lemma StepKeepsOver(w: World, a: Action, code: int, now: int)
    requires Over(w, code, now) && NotBefore(a, now)
    ensures Over(Step(w, a), code, now)
  {
    hide Over, Step, NotBefore;
    if a.Miss? || a.Complete? || a.CompletePhone? { UseKeepsOver(w, a, code, now); } else { OtherKeepsOver(w, a, code, now); }
  }

  lemma {:induction false} RunKeepsOver(w: World, actions: seq<Action>, code: int, now: int)
    requires Over(w, code, now) && From(actions, now)
    ensures Over(Run(w, actions), code, now)
    decreases actions
  {
    hide Over, Step, NotBefore;
    if actions != [] {
      assert forall i :: 0 <= i < |actions[1..]| ==> actions[1..][i] == actions[i + 1];
      StepKeepsOver(w, actions[0], code, now);
      RunKeepsOver(Step(w, actions[0]), actions[1..], code, now);
    }
  }

  /** The code has no attempts left and nobody past its read can use it. */
  ghost predicate UsedUp(w: World, code: int) {
    && code < w.nextId && code !in w.spent && (code in w.codes ==> w.codes[code].attempts >= MAX_ATTEMPTS)
    && forall p :: !Poised(w, p, code)
  }

  lemma SignUpKeepsUsedUp(w: World, p: int, tenant: string, now: int, code: int)
    requires UsedUp(w, code)
    ensures UsedUp(Step(w, Complete(p, tenant, now)), code)
  {
    var x := Step(w, Complete(p, tenant, now));
    assert forall c :: CompanyTaken(w.companies, c) ==> CompanyTaken(x.companies, c) by {
      forall c | CompanyTaken(w.companies, c) ensures CompanyTaken(x.companies, c) {
        var t :| t in w.companies && w.companies[t] == c;
        assert t in x.companies && x.companies[t] == c;
      }
    }
    assert !Poised(w, p, code);
    hide CompanyTaken;
    forall q ensures !Poised(x, q, code) { assert !Poised(w, q, code); }
  }

  lemma TableStepKeepsUsedUp(w: World, a: Action, code: int)
    requires UsedUp(w, code)
    requires a.Register? || a.ClearCodes? || a.AddCode? || a.RemoveCode? || a.RemovePending? || a.SetPlans?
    ensures UsedUp(Step(w, a), code)
  {
    hide CompanyTaken, Normalized, Trim, ToLower;
    forall q ensures Poised(Step(w, a), q, code) <==> Poised(w, q, code) {}
  }

  lemma ReadKeepsUsedUp(w: World, a: Action, code: int)
    requires UsedUp(w, code) && (a.ReadRow? || a.ReadCode? || a.ReadPhoneCode? || a.Quit?)
    ensures UsedUp(Step(w, a), code)
  {
    hide CompanyTaken, Usable;
    forall q ensures Poised(Step(w, a), q, code) ==> Poised(w, q, code) {}
  }

  lemma MissKeepsUsedUp(w: World, a: Action, code: int)
    requires UsedUp(w, code) && (a.Miss? || a.CompletePhone?)
    ensures UsedUp(Step(w, a), code)
  {
    hide CompanyTaken;
    forall q ensures Poised(Step(w, a), q, code) ==> Poised(w, q, code) {}
  }

  lemma StepKeepsUsedUp(w: World, a: Action, code: int)
    requires UsedUp(w, code)
    ensures UsedUp(Step(w, a), code)
  {
    hide UsedUp, Step;
    match a
    case Complete(p, tenant, now) => SignUpKeepsUsedUp(w, p, tenant, now, code);
    case ReadRow(_, _, _, _) => ReadKeepsUsedUp(w, a, code);
    case ReadCode(_, _, _) => ReadKeepsUsedUp(w, a, code);
    case ReadPhoneCode(_, _, _, _, _) => ReadKeepsUsedUp(w, a, code);
    case Quit(_) => ReadKeepsUsedUp(w, a, code);
    case Miss(_, _) => MissKeepsUsedUp(w, a, code);
    case CompletePhone(_, _) => MissKeepsUsedUp(w, a, code);
    case _ => TableStepKeepsUsedUp(w, a, code);
  }

  lemma {:induction false} RunKeepsUsedUp(w: World, actions: seq<Action>, code: int)
    requires UsedUp(w, code)
    ensures UsedUp(Run(w, actions), code)
    decreases actions
  {
    hide UsedUp, Step;
    if actions != [] {
      StepKeepsUsedUp(w, actions[0], code);
      RunKeepsUsedUp(Step(w, actions[0]), actions[1..], code);
    }
  }

  lemma {:induction false} LengthBound(names: set<string>) returns (n: nat)
    ensures forall s :: s in names ==> |s| < n
    decreases names
  {
    if names == {} {
      n := 0;
    } else {
      var s :| s in names;
      var m := LengthBound(names - {s});
      n := if m <= |s| then |s| + 1 else m;
    }
  }

  lemma PoisedSpends(w: World, p: int, code: int, tenant: string, now: int)
    requires Poised(w, p, code) && code in w.codes && !w.codes[code].consumed && w.codes[code].expires > now && tenant !in w.companies
    ensures var x := Step(Step(w, SetPlans({w.calls[p].row.plan})), Complete(p, tenant, now)); x.spent == w.spent + [code]
  {
    hide CompanyTaken;
  }

  /** A poised sign-up commits where nobody else moves. */
  lemma PoisedCommits(w: World, p: int, code: int, now: int) returns (actions: seq<Action>)
    requires Poised(w, p, code) && code in w.codes && !w.codes[code].consumed && w.codes[code].expires > now
    ensures From(actions, now) && code in Run(w, actions).spent
  {
    var n := LengthBound(w.companies.Keys);
    var tenant := seq(n, _ => 'x');
    assert |tenant| == n && tenant !in w.companies;
    assert p in w.calls;
    PoisedSpends(w, p, code, tenant, now);
    var a, b := SetPlans({w.calls[p].row.plan}), Complete(p, tenant, now);
    actions := [a, b];
    hide Step, Poised;
    RunTwo(w, a, b);
  }

  /** The e-mail path does not look at the attempts again when it commits. From now on a code without
      attempts left is nevertheless consumed in some continuation exactly when it has not expired and a
      sign-up that had already compared it successfully is still under way, with its company and its
      address unused. */
  lemma UsedUpCodeIsSpentIff(w: World, code: int, now: int)
    requires Sound(w) && code in w.codes && !w.codes[code].consumed && w.codes[code].attempts >= MAX_ATTEMPTS
    ensures (exists actions :: From(actions, now) && code in Run(w, actions).spent)
            <==> w.codes[code].expires > now && exists p :: Poised(w, p, code)
  {
    assert code < w.nextId && code !in w.spent;
    if w.codes[code].expires <= now {
      forall actions | From(actions, now) ensures code !in Run(w, actions).spent { RunKeepsOver(w, actions, code, now); }
    } else if p :| Poised(w, p, code) {
      var actions := PoisedCommits(w, p, code, now);
    } else {
      forall actions ensures code !in Run(w, actions).spent { RunKeepsUsedUp(w, actions, code); }
    }
  }

  // ---- A run in which that happens ----

  /** One wrong guess, start to end. */
  function Guess(p: int, reg: int, code: int, wrong: string, now: int): seq<Action> {
    [ReadRow(p, reg, wrong, now), ReadCode(p, code, now), Miss(p, now)]
  }

  function Guesses(n: nat, p: int, reg: int, code: int, wrong: string, now: int): seq<Action> {
    if n == 0 then [] else Guess(p, reg, code, wrong, now) + Guesses(n - 1, p, reg, code, wrong, now)
  }

  lemma {:induction false} RunAppend(w: World, a: seq<Action>, b: seq<Action>)
    ensures Run(w, a + b) == Run(Run(w, a), b)
    decreases a
  {
    hide Step;
    if a == [] {
      assert a + b == b;
    } else {
      assert (a + b)[1..] == a[1..] + b;
      RunAppend(Step(w, a[0]), a[1..], b);
    }
  }

  /** A wrong guess, as far as its comparison. */
  lemma GuessCompares(w: World, p: int, reg: int, code: int, wrong: string, now: int)
    requires p !in w.calls && reg in w.pending && !w.pending[reg].verified && now <= w.pending[reg].expires
    requires Newest(w, code, OfRegistration(reg), now) && w.codes[code].attempts < MAX_ATTEMPTS && w.codes[code].hash != wrong
    ensures Step(Step(w, ReadRow(p, reg, wrong, now)), ReadCode(p, code, now))
            == w.(calls := w.calls[p := HasCode(reg, w.pending[reg], code, false)])
  {
    var read := w.(calls := w.calls[p := HasRow(reg, wrong, w.pending[reg])]);
    assert Newest(read, code, OfRegistration(reg), now);
    hide Newest;
    assert read.calls[p := HasCode(reg, w.pending[reg], code, false)] == w.calls[p := HasCode(reg, w.pending[reg], code, false)];
  }

  lemma MissCounts(w: World, p: int, reg: int, code: int, now: int)
    requires p !in w.calls && reg in w.pending && code in w.codes && Usable(w.codes[code], OfRegistration(reg), now)
    requires w.codes[code].attempts < MAX_ATTEMPTS
    ensures MissCall(w.(calls := w.calls[p := HasCode(reg, w.pending[reg], code, false)]), p, now)
            == w.(codes := w.codes[code := w.codes[code].(attempts := w.codes[code].attempts + 1)])
  {
    assert w.calls[p := HasCode(reg, w.pending[reg], code, false)] - {p} == w.calls;
  }

  lemma GuessMisses(w: World, p: int, reg: int, code: int, wrong: string, now: int)
    requires p !in w.calls && reg in w.pending && !w.pending[reg].verified && now <= w.pending[reg].expires
    requires Newest(w, code, OfRegistration(reg), now) && w.codes[code].attempts < MAX_ATTEMPTS && w.codes[code].hash != wrong
    ensures Run(w, Guess(p, reg, code, wrong, now))
            == w.(codes := w.codes[code := w.codes[code].(attempts := w.codes[code].attempts + 1)])
  {
    GuessCompares(w, p, reg, code, wrong, now);
    MissCounts(w, p, reg, code, now);
    RunThree(w, ReadRow(p, reg, wrong, now), ReadCode(p, code, now), Miss(p, now));
    var compared := w.(calls := w.calls[p := HasCode(reg, w.pending[reg], code, false)]);
    assert Step(compared, Miss(p, now)) == MissCall(compared, p, now);
    hide Run, Newest, MissCall, Step;
  }

  /** A guess changes only the attempts, so the next one finds the same code. */
  lemma MissKeepsNewest(w: World, code: int, owner: Owner, now: int, attempts: nat)
    requires Newest(w, code, owner, now)
    ensures Newest(w.(codes := w.codes[code := w.codes[code].(attempts := attempts)]), code, owner, now)
  {}

  lemma {:induction false} GuessesUseUp(w: World, n: nat, p: int, reg: int, code: int, wrong: string, now: int)
    requires p !in w.calls && reg in w.pending && !w.pending[reg].verified && now <= w.pending[reg].expires
    requires Newest(w, code, OfRegistration(reg), now) && w.codes[code].attempts + n == MAX_ATTEMPTS && w.codes[code].hash != wrong
    ensures Run(w, Guesses(n, p, reg, code, wrong, now)) == w.(codes := w.codes[code := w.codes[code].(attempts := MAX_ATTEMPTS)])
    decreases n
  {
    if n == 0 {
      assert w.codes[code := w.codes[code]] == w.codes;
    } else {
      var more := w.codes[code].(attempts := w.codes[code].attempts + 1);
      var x := w.(codes := w.codes[code := more]);
      GuessMisses(w, p, reg, code, wrong, now);
      MissKeepsNewest(w, code, OfRegistration(reg), now, more.attempts);
      hide Run, Newest;
      GuessesUseUp(x, n - 1, p, reg, code, wrong, now);
      RunAppend(w, Guess(p, reg, code, wrong, now), Guesses(n - 1, p, reg, code, wrong, now));
      assert x.codes[code := x.codes[code].(attempts := MAX_ATTEMPTS)] == w.codes[code := w.codes[code].(attempts := MAX_ATTEMPTS)];
    }
  }

  /** Someone registers, and compares the right code. */
  function Compared(email: string, company: string, plan: string, hash: string, expires: int): seq<Action> {
    [Register(email, company, plan, 0, expires), AddCode(OfRegistration(1), hash, expires), ReadRow(1, 1, hash, 0)] + [ReadCode(1, 2, 0)]
  }

  /** What the tables then hold. */
  function ComparedWorld(email: string, company: string, plan: string, hash: string, expires: int): World {
    var row := Pending(Normalized(email), Trim(company), plan, expires, false);
    Empty({plan}).(pending := map[1 := row], emails := map[1 := row.email], nextId := 3,
                   codes := map[2 := Code(OfRegistration(1), hash, 0, expires, false)],
                   calls := map[1 := HasCode(1, row, 2, true)])
  }

  lemma NothingStale(email: string, now: int)
    ensures Unstale(map[], email, now) == map[]
  {}

  lemma RegisterFirst(email: string, company: string, plan: string, expires: int)
    requires Normalized(email) != "" && Trim(company) != ""
    ensures var row := Pending(Normalized(email), Trim(company), plan, expires, false);
            Step(Empty({plan}), Register(email, company, plan, 0, expires))
            == Empty({plan}).(pending := map[1 := row], emails := map[1 := row.email], nextId := 2)
  {
    hide Normalized, Trim, ToLower;
    NothingStale(Normalized(email), 0);
  }

  lemma ComparesFirst(email: string, company: string, plan: string, hash: string, expires: int)
    requires Normalized(email) != "" && Trim(company) != "" && expires > 0
    ensures Run(Empty({plan}), Compared(email, company, plan, hash, expires)) == ComparedWorld(email, company, plan, hash, expires)
  {
    var row := Pending(Normalized(email), Trim(company), plan, expires, false);
    var a, b, c := Register(email, company, plan, 0, expires), AddCode(OfRegistration(1), hash, expires), ReadRow(1, 1, hash, 0);
    RegisterFirst(email, company, plan, expires);
    RunThree(Empty({plan}), a, b, c);
    RunAppend(Empty({plan}), [a, b, c], [ReadCode(1, 2, 0)]);
    hide Normalized, Trim, ToLower;
    var x := Step(Step(Step(Empty({plan}), a), b), c);
    assert x == ComparedWorld(email, company, plan, hash, expires).(calls := map[1 := HasRow(1, hash, row)]);
    assert Newest(x, 2, OfRegistration(1), 0);
    assert x.calls[1 := HasCode(1, row, 2, true)] == map[1 := HasCode(1, row, 2, true)];
    assert Run(x, [ReadCode(1, 2, 0)]) == Step(x, ReadCode(1, 2, 0)) by { assert [ReadCode(1, 2, 0)][1..] == []; }
  }

  /** Whoever registers first: five wrong guesses overtake the right one after its comparison, the code has no
      attempts left, and the sign-up commits with it all the same. */
  lemma UsedUpCodeIsSpent(email: string, company: string, plan: string, hash: string, wrong: string, expires: int)
    requires Normalized(email) != "" && Trim(company) != "" && expires > 0 && hash != wrong
    ensures var actions := Compared(email, company, plan, hash, expires) + Guesses(MAX_ATTEMPTS, 2, 1, 2, wrong, 0);
            var w := Run(Empty({plan}), actions);
            && 2 in w.codes && !w.codes[2].consumed && w.codes[2].attempts == MAX_ATTEMPTS && Poised(w, 1, 2)
            && exists more :: From(more, 0) && 2 in Run(w, more).spent
  {
    var start, x := Empty({plan}), ComparedWorld(email, company, plan, hash, expires);
    var first, guesses := Compared(email, company, plan, hash, expires), Guesses(MAX_ATTEMPTS, 2, 1, 2, wrong, 0);
    ComparesFirst(email, company, plan, hash, expires);
    hide Normalized, Trim, ToLower, Run, Compared, Guesses;
    assert Newest(x, 2, OfRegistration(1), 0);
    GuessesUseUp(x, MAX_ATTEMPTS, 2, 1, 2, wrong, 0);
    RunAppend(start, first, guesses);
    var w := Run(start, first + guesses);
    assert Poised(w, 1, 2);
    hide Poised;
    var more := PoisedCommits(w, 1, 2, 0);
  }

  // ---- What a sign-up leaves ----

  /** The transaction enters the company under its new tenant id, its trial and its address, uses the code up and
      verifies the registration; nothing else changes. It is refused exactly where company, tenant id, address
      or code are used, the code is over, or the plan is not offered. */
  lemma SignUpOutcome(w: World, reg: int, row: Pending, code: int, tenant: string, now: int)
    ensures var x := SignUp(w, reg, row, code, tenant, now);
            && (x == w <==>
                  || (exists t :: t in w.companies && w.companies[t] == row.company) || tenant in w.companies || row.plan !in w.plans
                  || code !in w.codes || w.codes[code].consumed || w.codes[code].expires <= now || row.email in w.registry)
            && (x != w ==>
                  && x.companies == w.companies[tenant := row.company] && x.trials == w.trials + {tenant}
                  && x.registry == w.registry[row.email := tenant] && x.signups == w.signups + [Signup(reg, row.email, code, tenant)]
                  && x.codes.Keys == w.codes.Keys && (forall k :: k in w.codes && k != code ==> x.codes[k] == w.codes[k])
                  && x.codes[code] == Code(w.codes[code].owner, w.codes[code].hash, w.codes[code].attempts, w.codes[code].expires, true)
                  && x.pending.Keys == w.pending.Keys && (forall k :: k in w.pending && k != reg ==> x.pending[k] == w.pending[k])
                  && (reg in w.pending ==> x.pending[reg] == w.pending[reg].(verified := true))
                  && x.spent == w.spent + [code] && x.phones == w.phones && x.emails == w.emails && x.plans == w.plans)
  {}

  /** A phone is verified exactly by a usable code of its own account with attempts left, which is then used up. */
  lemma PhoneUseOutcome(w: World, account: int, code: int, now: int)
    ensures var x := VerifyPhone(w, account, code, now);
            && (x == w <==> !(code in w.codes && w.codes[code].owner == OfAccount(account) && !w.codes[code].consumed
                              && w.codes[code].expires > now && w.codes[code].attempts < 5))
            && (x != w ==> x == w.(phones := w.phones + {account}, spent := w.spent + [code],
                                   codes := w.codes[code := w.codes[code].(consumed := true)]))
  {
    assert |w.spent + [code]| == |w.spent| + 1;
  }

  /** A wrong guess counts on its own code while that is usable, and on no other; the fifth is the last. */
  lemma MissOutcome(w: World, p: int, reg: int, row: Pending, code: int, now: int)
    requires p in w.calls && w.calls[p] == HasCode(reg, row, code, false)
    ensures var x := Step(w, Miss(p, now));
            && p !in x.calls && x == w.(calls := x.calls, codes := x.codes) && x.codes.Keys == w.codes.Keys
            && (forall k :: k in w.codes && k != code ==> x.codes[k] == w.codes[k])
            && (code in w.codes ==>
                  x.codes[code] == w.codes[code].(attempts :=
                    if w.codes[code].owner == OfRegistration(reg) && !w.codes[code].consumed && w.codes[code].expires > now
                       && w.codes[code].attempts < 5 then w.codes[code].attempts + 1 else w.codes[code].attempts))
  {}

  /** No two tenants ever have the same company name. */
  ghost predicate CompaniesDiffer(companies: map<string, string>) {
    forall t, u :: t in companies && u in companies && t != u ==> companies[t] != companies[u]
  }

  lemma StepKeepsCompanies(w: World, a: Action)
    requires CompaniesDiffer(w.companies)
    ensures CompaniesDiffer(Step(w, a).companies)
  {
    if a.Complete? && a.p in w.calls && w.calls[a.p].HasCode? {
      SignUpOutcome(w, w.calls[a.p].reg, w.calls[a.p].row, w.calls[a.p].code, a.tenant, a.now);
      hide SignUp;
    } else {
      hide CompaniesDiffer, SignUp, Start;
      CompaniesStay(w, a);
    }
  }

  lemma CompaniesStay(w: World, a: Action)
    requires !(a.Complete? && a.p in w.calls && w.calls[a.p].HasCode?)
    ensures Step(w, a).companies == w.companies
  {}

  lemma {:induction false} EachCompanyOnce(w: World, actions: seq<Action>)
    requires CompaniesDiffer(w.companies)
    ensures CompaniesDiffer(Run(w, actions).companies)
    decreases actions
  {
    hide CompaniesDiffer, Step;
    if actions != [] {
      StepKeepsCompanies(w, actions[0]);
      EachCompanyOnce(Step(w, actions[0]), actions[1..]);
    }
  }

  /** Row `k` outlives the clean-up before a registration of this address. */
  predicate Outlives(w: World, k: int, e: string, now: int) {
    k in w.pending && (w.pending[k].expires > now || w.pending[k].verified || ToLower(w.pending[k].email) != ToLower(e))
  }

  /** ... and holds the address. */
  predicate Holds(w: World, k: int, e: string, now: int) { Outlives(w, k, e, now) && ToLower(w.pending[k].email) == ToLower(e) }

  lemma UnstaleOutlives(w: World, e: string, now: int, k: int)
    ensures k in Unstale(w.pending, e, now) <==> Outlives(w, k, e, now)
    ensures Outlives(w, k, e, now) ==> Unstale(w.pending, e, now)[k] == w.pending[k]
  {
    hide ToLower;
  }

  /** A registration needs an address, a company and an offered plan, and no live pending row of the address. */
  lemma StartIsRefused(w: World, email: string, company: string, plan: string, now: int, expires: int)
    requires Trim(ToLower(email)) == "" || Trim(company) == "" || plan !in w.plans || exists k :: Holds(w, k, Trim(ToLower(email)), now)
    ensures Start(w, email, company, plan, now, expires) == w
  {
    var e := Trim(ToLower(email));
    if k :| Holds(w, k, e, now) { UnstaleOutlives(w, e, now, k); }
    hide Trim, ToLower, Unstale;
  }

  /** It is then entered under the next id with its trimmed company and its plan, and stale rows of the address go. */
  lemma StartOutcome(w: World, email: string, company: string, plan: string, now: int, expires: int)
    requires Trim(ToLower(email)) != "" && Trim(company) != "" && plan in w.plans
    requires forall k :: !Holds(w, k, Trim(ToLower(email)), now)
    ensures var x, e := Start(w, email, company, plan, now, expires), Trim(ToLower(email));
            && x == w.(pending := x.pending, emails := w.emails[w.nextId := e], nextId := w.nextId + 1)
            && w.nextId in x.pending && x.pending[w.nextId] == Pending(e, Trim(company), plan, expires, false)
            && (forall k :: k != w.nextId ==> (k in x.pending <==> Outlives(w, k, e, now)))
            && (forall k :: k != w.nextId && k in x.pending ==> x.pending[k] == w.pending[k])
  {
    var e := Trim(ToLower(email));
    forall k ensures k in Unstale(w.pending, e, now) <==> Outlives(w, k, e, now) { UnstaleOutlives(w, e, now, k); }
    forall k | Outlives(w, k, e, now)
      ensures Unstale(w.pending, e, now)[k] == w.pending[k] && ToLower(w.pending[k].email) != ToLower(e)
    {
      UnstaleOutlives(w, e, now, k);
      assert !Holds(w, k, e, now);
    }
    hide Trim, ToLower, Unstale, Outlives;
  }

  /** The account's newest code that is neither used nor over, with attempts left. */
  predicate Guessable(w: World, code: int, account: int, now: int) {
    && code in w.codes && w.codes[code].owner == OfAccount(account) && !w.codes[code].consumed && w.codes[code].expires > now
    && w.codes[code].attempts < 5
    && forall k :: k in w.codes && k > code && w.codes[k].owner == OfAccount(account) && !w.codes[k].consumed ==> w.codes[k].expires <= now
  }

  lemma PhoneRead(w: World, p: int, account: int, hash: string, code: int, now: int)
    requires p !in w.calls
    ensures Step(w, ReadPhoneCode(p, account, hash, code, now))
            == if Guessable(w, code, account, now) then w.(calls := w.calls[p := HasPhoneCode(account, code, hash == w.codes[code].hash)]) else w
  {}

  /** An undisturbed guess of a phone code verifies the phone and uses the code up when it is right, counts an
      attempt when it is wrong, and changes nothing where there is no code to guess. */
  lemma PhoneGuess(w: World, p: int, account: int, hash: string, code: int, now: int)
    requires p !in w.calls
    ensures var x := Step(Step(w, ReadPhoneCode(p, account, hash, code, now)), CompletePhone(p, now));
            Guessable(w, code, account, now) && hash == w.codes[code].hash ==>
              x == w.(phones := w.phones + {account}, spent := w.spent + [code], codes := w.codes[code := w.codes[code].(consumed := true)])
    ensures var x := Step(Step(w, ReadPhoneCode(p, account, hash, code, now)), Miss(p, now));
            Guessable(w, code, account, now) && hash != w.codes[code].hash ==>
              x == w.(codes := w.codes[code := w.codes[code].(attempts := w.codes[code].attempts + 1)])
    ensures !Guessable(w, code, account, now) ==> Step(w, ReadPhoneCode(p, account, hash, code, now)) == w
  {
    PhoneRead(w, p, account, hash, code, now);
    if Guessable(w, code, account, now) {
      var call := HasPhoneCode(account, code, hash == w.codes[code].hash);
      assert w.calls[p := call] - {p} == w.calls;
      assert w.calls[p := call][p] == call;
    }
  }

  /** A new code has all its attempts; before it, the unused codes of its owner go, and no others; a code or a
      registration that could not be delivered is taken back. */
  lemma CodesOutcome(w: World, owner: Owner, hash: string, expires: int, id: int)
    ensures var x := Step(w, ClearCodes(owner));
            && x == w.(codes := x.codes) && (forall k :: k in x.codes <==> k in w.codes && (w.codes[k].owner != owner || w.codes[k].consumed))
            && forall k :: k in x.codes ==> x.codes[k] == w.codes[k]
    ensures Step(w, AddCode(owner, hash, expires))
            == w.(codes := w.codes[w.nextId := Code(owner, hash, 0, expires, false)], nextId := w.nextId + 1)
    ensures Step(w, RemoveCode(id)) == w.(codes := w.codes - {id}) && Step(w, RemovePending(id)) == w.(pending := w.pending - {id})
  {}
}
