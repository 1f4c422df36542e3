/** The retirement ledger: why the users of a tenant were retired, and which identities are kept. */
module Retirement {
  import opened Base
  import opened Text
  import opened Subscriptions

  datatype Reason = TrialExpired | AccountDeleted | Discontinued | LegacyUnknown

  /** A row of any of the sources an identity is learnt from. */
  datatype Identity = Identity(id: Option<int>, name: string, email: string)

  datatype LedgerRow = LedgerRow(userId: Option<int>, name: string, status: Reason, retiredAt: int, updatedAt: int)

  type RetiredUsers = map<string, LedgerRow>

  /** Width of the ledger's `username` column. */
  const MAX_NAME := 100

  function RetirementStatus(account: AccountStatus, latest: Option<Sub>, trialExpires: Option<int>, now: int): Reason {
    if latest.Some? && latest.value.status == Cancelled then Discontinued
    else if account == Terminated then AccountDeleted
    else if (latest.None? || latest.value.ref.None?)
            && ((latest.Some? && latest.value.status == Expired) || (trialExpires.Some? && trialExpires.value <= now)) then TrialExpired
    else AccountDeleted
  }

  /** What the reasons promise: a cancelled subscription is discontinued whatever the account, a paid one never
      counts as an expired trial, and a terminated account is deleted or discontinued. */
  lemma ReasonsAsPromised(account: AccountStatus, latest: Option<Sub>, trialExpires: Option<int>, now: int)
    ensures var r := RetirementStatus(account, latest, trialExpires, now);
            && (r == Discontinued <==> latest.Some? && latest.value.status == Cancelled)
            && (r == TrialExpired <==>
                  && account != Terminated && (latest.Some? ==> latest.value.ref.None? && latest.value.status != Cancelled)
                  && ((latest.Some? && latest.value.status == Expired) || (trialExpires.Some? && trialExpires.value <= now)))
            && r != LegacyUnknown
  {}

  /** The recorded reason is the same whether or not a sweep has already expired the latest row. */
  lemma SweepKeepsReason(account: AccountStatus, latest: Sub, trialExpires: Option<int>, at: int, now: int)
    requires at <= now && (latest.ref.None? ==> latest.status != Active && latest.endsAt == trialExpires)
    ensures RetirementStatus(account, Some(SweepSub(latest, at)), trialExpires, now)
            == RetirementStatus(account, Some(latest), trialExpires, now)
  {}

  function CleanEmail(email: string): string { ToLower(Trim(email)) }

  /** The user name, or the e-mail address where the name is blank or only repeats it. */
  function CleanName(name: string, email: string): string {
    if Trim(name) == "" || ToLower(Trim(name)) == CleanEmail(email) then CleanEmail(email) else Trim(name)
  }

  function Emails(src: seq<Identity>): set<string> {
    set i | 0 <= i < |src| && CleanEmail(src[i].email) != "" :: CleanEmail(src[i].email)
  }

  /** The first id any source gives for this address. */
  function FirstId(src: seq<Identity>, email: string): Option<int> {
    if src == [] then None
    else if CleanEmail(src[0].email) == email && src[0].id.Some? then src[0].id
    else FirstId(src[1..], email)
  }

  /** The first user name that is not the address itself; the address where there is none. */
  function FirstName(src: seq<Identity>, email: string): string {
    if src == [] then email
    else if CleanEmail(src[0].email) == email && CleanName(src[0].name, src[0].email) != email then CleanName(src[0].name, src[0].email)
    else FirstName(src[1..], email)
  }

  /** What is known about each address, over all the sources. */
  function Merged(src: seq<Identity>): map<string, Identity> {
    map e | e in Emails(src) :: Identity(FirstId(src, e), FirstName(src, e), e)
  }

  lemma {:induction false} FirstOfMore(src: seq<Identity>, u: Identity, e: string)
    ensures FirstId(src + [u], e) == if FirstId(src, e).Some? then FirstId(src, e) else if CleanEmail(u.email) == e then u.id else None
    ensures FirstName(src + [u], e) == if FirstName(src, e) != e then FirstName(src, e)
                                       else if CleanEmail(u.email) == e then CleanName(u.name, u.email) else e
  {
    hide CleanEmail, CleanName;
    if src == [] {
      assert src + [u] == [u];
    } else {
      FirstOfMore(src[1..], u, e);
      assert (src + [u])[1..] == src[1..] + [u] && (src + [u])[0] == src[0];
    }
  }

  lemma EmailsOfMore(src: seq<Identity>, u: Identity)
    ensures Emails(src + [u]) == Emails(src) + if CleanEmail(u.email) == "" then {} else {CleanEmail(u.email)}
  {
    var more := src + [u];
    assert more[|src|] == u;
    assert forall i :: 0 <= i < |src| ==> more[i] == src[i];
  }

  /** A list with no row for an address says nothing about it. */
  lemma {:induction false} NothingFirst(src: seq<Identity>, e: string)
    requires e !in Emails(src) && e != ""
    ensures FirstId(src, e) == None && FirstName(src, e) == e
  {
    if src != [] {
      assert CleanEmail(src[0].email) != e;
      assert Emails(src[1..]) <= Emails(src) by {
        forall i | 0 <= i < |src[1..]| && CleanEmail(src[1..][i].email) != "" ensures CleanEmail(src[1..][i].email) in Emails(src) {
          assert src[1..][i] == src[i + 1];
        }
      }
      NothingFirst(src[1..], e);
    }
  }

  lemma MergedElsewhere(src: seq<Identity>, u: Identity)
    ensures var m, key, after := Merged(src), CleanEmail(u.email), Merged(src + [u]);
            && after.Keys == m.Keys + (if key == "" then {} else {key})
            && forall e :: e in m && e != key ==> after[e] == m[e]
    ensures "" !in Merged(src)
  {
    EmailsOfMore(src, u);
    var m, after := Merged(src), Merged(src + [u]);
    assert "" !in m;
    hide CleanEmail, CleanName, Emails, FirstId, FirstName;
    forall e | e in m && e != CleanEmail(u.email) ensures after[e] == m[e] { FirstOfMore(src, u, e); }
  }

  /** What one more source row does to the merged map. */
  lemma MergedOfMore(src: seq<Identity>, u: Identity)
    ensures var m, key, name := Merged(src), CleanEmail(u.email), CleanName(u.name, u.email);
            Merged(src + [u]) ==
            if key == "" then m
            else if key !in m then m[key := Identity(u.id, name, key)]
            else m[key := Identity(if m[key].id.Some? then m[key].id else u.id, if m[key].name != key then m[key].name else name, key)]
  {
    var m, key, after := Merged(src), CleanEmail(u.email), Merged(src + [u]);
    MergedElsewhere(src, u);
    hide CleanEmail, CleanName, Emails, FirstId, FirstName;
    if key != "" {
      FirstOfMore(src, u, key);
      if key !in m { NothingFirst(src, key); }
      hide Merged;
      assert after == m[key := after[key]];
    } else {
      hide Merged;
      assert after == m;
    }
  }

  // ---- What is known about an address, told from the rows alone ----

  /** The row has a user name that is not its address again. */
  predicate RealName(u: Identity) { Trim(u.name) != "" && ToLower(Trim(u.name)) != ToLower(Trim(u.email)) }

  predicate HasAddress(u: Identity, e: string) { ToLower(Trim(u.email)) == e }

  lemma LowerStays(s: string)
    ensures ToLower(ToLower(s)) == ToLower(s)
  {}

  lemma CleanNameIsReal(u: Identity, e: string)
    requires HasAddress(u, e)
    ensures (CleanName(u.name, u.email) != e <==> RealName(u)) && (RealName(u) ==> CleanName(u.name, u.email) == Trim(u.name))
  {
    LowerStays(Trim(u.email));
    hide Trim, ToLower;
  }

  /** Exactly the addresses of the rows are known, the blank one excepted. */
  lemma MergedAddresses(src: seq<Identity>, e: string)
    ensures e in Merged(src) <==> e != "" && exists i :: 0 <= i < |src| && HasAddress(src[i], e)
    ensures e in Merged(src) ==> Merged(src)[e].email == e
  {
    hide Trim, ToLower, FirstId, FirstName;
  }

  /** The name of an address is that of the first row that has a real one. */
  lemma {:induction false} NameIsFirstReal(src: seq<Identity>, i: int)
    requires 0 <= i < |src| && ToLower(Trim(src[i].email)) != "" && RealName(src[i])
    requires forall j :: 0 <= j < i && HasAddress(src[j], ToLower(Trim(src[i].email))) ==> !RealName(src[j])
    ensures var e := ToLower(Trim(src[i].email)); e in Merged(src) && Merged(src)[e].name == Trim(src[i].name)
  {
    MergedAddresses(src, ToLower(Trim(src[i].email)));
    FirstNameIsFirstReal(src, i);
    hide Trim, ToLower, FirstName, RealName;
  }

  lemma {:induction false} FirstNameIsFirstReal(src: seq<Identity>, i: int)
    requires 0 <= i < |src| && RealName(src[i])
    requires forall j :: 0 <= j < i && HasAddress(src[j], ToLower(Trim(src[i].email))) ==> !RealName(src[j])
    ensures FirstName(src, ToLower(Trim(src[i].email))) == Trim(src[i].name)
    decreases i
  {
    var e := ToLower(Trim(src[i].email));
    if HasAddress(src[0], e) { CleanNameIsReal(src[0], e); }
    hide Trim, ToLower, CleanName, RealName;
    if i > 0 {
      assert forall j :: 0 <= j < |src| - 1 ==> src[1..][j] == src[j + 1];
      FirstNameIsFirstReal(src[1..], i - 1);
    }
  }

  /** ... and the address itself exactly where no row has one. */
  lemma NameIsAddressIff(src: seq<Identity>, e: string)
    requires e in Merged(src)
    ensures Merged(src)[e].name == e <==> forall i :: 0 <= i < |src| && HasAddress(src[i], e) ==> !RealName(src[i])
  {
    FirstNameIsAddressIff(src, e);
    hide Trim, ToLower, FirstName, FirstId, RealName;
  }

  lemma {:induction false} FirstNameIsAddressIff(src: seq<Identity>, e: string)
    ensures FirstName(src, e) == e <==> forall i :: 0 <= i < |src| && HasAddress(src[i], e) ==> !RealName(src[i])
  {
    if src != [] {
      if HasAddress(src[0], e) { CleanNameIsReal(src[0], e); }
      hide Trim, ToLower, CleanName, RealName;
      FirstNameIsAddressIff(src[1..], e);
      assert forall i :: 0 <= i < |src| - 1 ==> src[1..][i] == src[i + 1];
      if FirstName(src[1..], e) == e {
        forall i | 1 <= i < |src| && HasAddress(src[i], e) ensures !RealName(src[i]) { assert src[1..][i - 1] == src[i]; }
      }
    }
  }

  /** The id of an address is that of the first row that has one. */
  lemma IdIsFirst(src: seq<Identity>, i: int)
    requires 0 <= i < |src| && ToLower(Trim(src[i].email)) != "" && src[i].id.Some?
    requires forall j :: 0 <= j < i && HasAddress(src[j], ToLower(Trim(src[i].email))) ==> src[j].id.None?
    ensures var e := ToLower(Trim(src[i].email)); e in Merged(src) && Merged(src)[e].id == src[i].id
  {
    MergedAddresses(src, ToLower(Trim(src[i].email)));
    FirstIdIsFirst(src, i);
    hide Trim, ToLower, FirstId, FirstName;
  }

  lemma {:induction false} FirstIdIsFirst(src: seq<Identity>, i: int)
    requires 0 <= i < |src| && src[i].id.Some?
    requires forall j :: 0 <= j < i && HasAddress(src[j], ToLower(Trim(src[i].email))) ==> src[j].id.None?
    ensures FirstId(src, ToLower(Trim(src[i].email))) == src[i].id
    decreases i
  {
    hide Trim, ToLower;
    if i > 0 {
      assert forall j :: 0 <= j < |src| - 1 ==> src[1..][j] == src[j + 1];
      FirstIdIsFirst(src[1..], i - 1);
    }
  }

  /** ... and missing exactly where no row has one. */
  lemma IdIsMissingIff(src: seq<Identity>, e: string)
    requires e in Merged(src)
    ensures Merged(src)[e].id.None? <==> forall i :: 0 <= i < |src| && HasAddress(src[i], e) ==> src[i].id.None?
  {
    FirstIdIsMissingIff(src, e);
    hide Trim, ToLower, FirstName, FirstId;
  }

  lemma {:induction false} FirstIdIsMissingIff(src: seq<Identity>, e: string)
    ensures FirstId(src, e).None? <==> forall i :: 0 <= i < |src| && HasAddress(src[i], e) ==> src[i].id.None?
  {
    hide Trim, ToLower;
    if src != [] {
      FirstIdIsMissingIff(src[1..], e);
      assert forall i :: 0 <= i < |src| - 1 ==> src[1..][i] == src[i + 1];
      if FirstId(src[1..], e).None? {
        forall i | 1 <= i < |src| && HasAddress(src[i], e) ensures src[i].id.None? { assert src[1..][i - 1] == src[i]; }
      }
    }
  }

  /** `usersByEmail` and the closure that fills it. */
  class UserMerge {
    var users: map<string, Identity>

    constructor ()
      ensures users == map[]
    {
      users := map[];
    }

    method AddUser(u: Identity, ghost src: seq<Identity>)
      requires users == Merged(src)
      modifies this
      ensures users == Merged(src + [u])
    {
      MergedOfMore(src, u);
      hide CleanEmail, CleanName;
      var key, name := CleanEmail(u.email), CleanName(u.name, u.email);
      if key == "" { return; }
      if key !in users {
        users := users[key := Identity(u.id, name, key)];
      } else {
        var existing := users[key];
        assert existing.email == key;
        hide Merged;
        if existing.name == existing.email && name != key {
          existing := existing.(name := name);
        }
        if existing.id.None? && u.id.Some? {
          existing := existing.(id := u.id);
        }
        users := users[key := existing];
      }
    }

    method AddAll(rows: seq<Identity>, ghost src: seq<Identity>)
      requires users == Merged(src)
      modifies this
      ensures users == Merged(src + rows)
    {
      assert src + rows[..0] == src;
      for i := 0 to |rows|
        invariant users == Merged(src + rows[..i])
      {
        AddUser(rows[i], src + rows[..i]);
        assert src + rows[..i] + [rows[i]] == src + rows[..i + 1];
      }
      assert rows[..|rows|] == rows;
    }
  }

  // ---- The ledger ----

  /** INSERT ... ON CONFLICT (tenant_id, email) DO UPDATE */
  function Upserted(row: Option<LedgerRow>, u: Identity, status: Reason, now: int): LedgerRow {
    if row.None? then LedgerRow(u.id, u.name, status, now, now)
    else LedgerRow(
      if u.id.Some? then u.id else row.value.userId,
      if u.name == u.email then row.value.name else u.name,
      status,
      if row.value.status != status then now else row.value.retiredAt,
      now)
  }

  function Entered(ledger: RetiredUsers, users: map<string, Identity>, status: Reason, now: int): RetiredUsers {
    map e | e in ledger.Keys + users.Keys :: if e in users then Upserted(Get(ledger, e), users[e], status, now) else ledger[e]
  }

  /** Every name fits its column; one that does not rolls the whole archive back. */
  predicate Fits(users: map<string, Identity>) {
    forall e :: e in users ==> |users[e].name| <= MAX_NAME
  }

  /** The ledger after an archive; None when the transaction rolls back. */
  function Archived(ledger: RetiredUsers, users: map<string, Identity>, status: Reason, now: int): Option<RetiredUsers> {
    if Fits(users) then Some(Entered(ledger, users, status, now)) else None
  }

  /** A later row has lost nothing of an earlier one, and tells the same end. */
  ghost predicate Kept(email: string, before: LedgerRow, after: LedgerRow) {
    && after.status == before.status && after.retiredAt == before.retiredAt
    && (before.userId.Some? ==> after.userId.Some?)
    && (before.name != email ==> after.name != email)
  }

  ghost predicate AllKept(before: RetiredUsers, after: RetiredUsers) {
    forall e :: e in before ==> e in after && Kept(e, before[e], after[e])
  }

  ghost predicate AllStatus(ledger: RetiredUsers, status: Reason) {
    forall e :: e in ledger ==> ledger[e].status == status
  }

  ghost predicate KeyedByEmail(users: map<string, Identity>) {
    forall e :: e in users ==> users[e].email == e
  }

  /** Archiving again for the same reason keeps every row's reason, its first date, its user id and
      its real user name, however little the sources still know. */
  lemma ArchivingAgainKeeps(ledger: RetiredUsers, users: map<string, Identity>, status: Reason, now: int)
    requires AllStatus(ledger, status) && KeyedByEmail(users)
    ensures AllKept(ledger, Entered(ledger, users, status, now)) && AllStatus(Entered(ledger, users, status, now), status)
  {}

  /** What an archive adds is exactly what was merged: no address is missed and none invented. */
  lemma ArchiveCovers(ledger: RetiredUsers, users: map<string, Identity>, status: Reason, now: int)
    requires KeyedByEmail(users)
    ensures var l := Entered(ledger, users, status, now);
            && l.Keys == ledger.Keys + users.Keys
            && (forall e :: e in users ==> (users[e].id.Some? ==> l[e].userId == users[e].id)
                                           && (users[e].name != e ==> l[e].name == users[e].name) && l[e].status == status)
            && (forall e :: e in ledger && e !in users ==> l[e] == ledger[e])
  {}

  /** The columns of a ledger row after an archive: a new row is all the archive knows, dated now; an old one
      keeps an id and a name the archive does not know, and its date unless the reason is a new one. */
  lemma ArchivedRow(ledger: RetiredUsers, users: map<string, Identity>, status: Reason, now: int, e: string)
    requires e in users && users[e].email == e
    ensures var row := Entered(ledger, users, status, now)[e];
            && row.status == status && row.updatedAt == now
            && (e !in ledger ==> row.userId == users[e].id && row.name == users[e].name && row.retiredAt == now)
            && (e in ledger ==>
                  && row.userId == (if users[e].id.None? then ledger[e].userId else users[e].id)
                  && row.name == (if users[e].name == e then ledger[e].name else users[e].name)
                  && (row.retiredAt == ledger[e].retiredAt || (row.retiredAt == now && status != ledger[e].status))
                  && (status != ledger[e].status ==> row.retiredAt == now))
  {}

  lemma EnterOne(ledger: RetiredUsers, users: map<string, Identity>, e: string, u: Identity, status: Reason, now: int)
    requires e !in users
    ensures var l := Entered(ledger, users, status, now);
            Entered(ledger, users[e := u], status, now) == l[e := Upserted(Get(l, e), u, status, now)]
    ensures Fits(users[e := u]) <==> Fits(users) && |u.name| <= MAX_NAME
  {
    hide Upserted;
    var l, m := Entered(ledger, users, status, now), Entered(ledger, users[e := u], status, now);
    assert m.Keys == l.Keys + {e};
    if Fits(users[e := u]) {
      forall d | d in users ensures |users[d].name| <= MAX_NAME { assert users[e := u][d] == users[d]; }
      assert users[e := u][e] == u;
    }
  }

  lemma FitsPart(users: map<string, Identity>, part: map<string, Identity>)
    requires forall e :: e in part ==> e in users && part[e] == users[e]
    requires !Fits(part)
    ensures !Fits(users)
  {}

  /** The upsert loop of an archive; a name that does not fit abandons the transaction. */
  method WriteLedger(ledger: RetiredUsers, users: map<string, Identity>, status: Reason, now: int) returns (after: Option<RetiredUsers>)
    ensures after == Archived(ledger, users, status, now)
  {
    hide Upserted, Fits, Entered;
    var todo, rows := users.Keys, ledger;
    assert users - todo == map[];
    assert Fits(map[]) && Entered(ledger, map[], status, now) == ledger by { NothingEntered(ledger, status, now); }
    while todo != {}
      invariant todo <= users.Keys
      invariant rows == Entered(ledger, users - todo, status, now) && Fits(users - todo)
      decreases |todo|
    {
      var e :| e in todo;
      EnterOne(ledger, users - todo, e, users[e], status, now);
      assert (users - todo)[e := users[e]] == users - (todo - {e});
      if |users[e].name| > MAX_NAME {
        FitsPart(users, users - (todo - {e}));
        return None;
      }
      rows := rows[e := Upserted(Get(rows, e), users[e], status, now)];
      todo := todo - {e};
    }
    assert users - todo == users;
    after := Some(rows);
  }

  lemma NothingEntered(ledger: RetiredUsers, status: Reason, now: int)
    ensures Fits(map[]) && Entered(ledger, map[], status, now) == ledger
  {}

  /** With user names within the width of their columns, an archive fails exactly when some address
      is itself too long for a user name and no source knows a real name for it. */
  lemma FitsIff(src: seq<Identity>)
    requires NamesFit(src)
    ensures Fits(Merged(src)) <==> forall e :: e in Emails(src) ==> |e| <= MAX_NAME || FirstName(src, e) != e
  {
    forall e | e in Emails(src) ensures FirstName(src, e) != e ==> |FirstName(src, e)| <= MAX_NAME { FirstNameIsShort(src, e); }
    hide NamesFit, FirstName, FirstId, Emails;
    var m := Merged(src);
    assert forall e :: e in Emails(src) ==> m[e].name == FirstName(src, e);
  }

  ghost predicate NamesFit(src: seq<Identity>) {
    forall i :: 0 <= i < |src| ==> |src[i].name| <= MAX_NAME || CleanName(src[i].name, src[i].email) == CleanEmail(src[i].email)
  }

  lemma {:induction false} FirstNameIsShort(src: seq<Identity>, e: string)
    requires NamesFit(src)
    ensures FirstName(src, e) != e ==> |FirstName(src, e)| <= MAX_NAME
  {
    if src != [] {
      TrimFacts(src[0].name);
      hide Trim, ToLower;
      FirstNameIsShort(src[1..], e);
    }
  }

  /** More sources never lose an address, an id or a real name. */
  lemma {:induction false} MoreSourcesKeep(src: seq<Identity>, more: seq<Identity>, e: string)
    ensures FirstId(src, e).Some? ==> FirstId(src + more, e) == FirstId(src, e)
    ensures FirstName(src, e) != e ==> FirstName(src + more, e) == FirstName(src, e)
    ensures e in Emails(src) ==> e in Emails(src + more)
    ensures e in Emails(more) ==> e in Emails(src + more)
  {
    hide CleanEmail, CleanName;
    if src == [] {
      assert src + more == more;
    } else {
      MoreSourcesKeep(src[1..], more, e);
      assert (src + more)[1..] == src[1..] + more;
      EmailsOfHead(src, e);
      EmailsOfHead(src + more, e);
    }
  }

  lemma EmailsOfHead(src: seq<Identity>, e: string)
    requires src != []
    ensures e in Emails(src) <==> (e == CleanEmail(src[0].email) && e != "") || e in Emails(src[1..])
  {}
}
