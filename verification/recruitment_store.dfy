/** The handlers of the recruitment pipeline as the code runs them, one statement after another
    over the tables of one tenant database. Each method is proved to be the transaction of module
    Recruitment that its name says; the theorems there speak about every interleaving of those. */
module RecruitmentStore {
  import opened Base
  import opened Recruitment

  datatype Reply = Created | Updated | BadRequest | NotFound | Conflict | Unprocessable | InternalError

  class Store {
    var users: set<int>
    var clients: set<int>
    var requirements: map<int, int>
    var candidates: map<int, Candidate>
    var screenings: map<int, Screening>
    var interviews: map<int, Interview>
    var tracks: map<Pair, Track>
    var audit: seq<Event>
    var serial: int  // above every id handed out so far

    function Tables(): Db
      reads this
    {
      Db(users, clients, requirements, candidates, screenings, interviews, tracks, audit)
    }

    ghost predicate Valid()
      reads this
    {
      (forall s :: s in screenings ==> s < serial) && (forall i :: i in interviews ==> i < serial)
    }

    constructor ()
      ensures Valid() && Tables() == EMPTY
    {
      users, clients, requirements, candidates := {}, {}, map[], map[];
      screenings, interviews, tracks, audit, serial := map[], map[], map[], [], 1;
    }

    method CreateCandidateScreening(p: Pair, recruiter: int) returns (reply: Reply, id: int)
      requires Valid()
      modifies this
      ensures Valid() && id == old(serial)
      ensures reply == BadRequest <==> p.requirement <= 0 || recruiter <= 0
      ensures Tables() == if reply == BadRequest then old(Tables()) else CreateScreening(old(Tables()), p, recruiter, id)
      ensures reply == Created <==> Tables() != old(Tables())
      ensures reply == Conflict ==>
                p.candidate in old(candidates) && old(candidates)[p.candidate].count >= old(candidates)[p.candidate].limit
    {
      id := serial;
      if p.requirement <= 0 || recruiter <= 0 { return BadRequest, id; }
      if p.candidate !in candidates || p.requirement !in requirements || recruiter !in users { return NotFound, id; }
      var c := candidates[p.candidate];
      if !(c.count < c.limit) { return Conflict, id; }
      candidates := candidates[p.candidate := c.(count := c.count + 1)];
      screenings := screenings[id := Screening(p, Active)];
      serial := serial + 1;
      audit := audit + [Screened(p, id, Active)];
      reply := Created;
    }

    method UpdateCandidateScreening(id: int, candidate: int, status: ScreeningStatus) returns (reply: Reply)
      requires Valid()
      modifies this
      ensures Valid()
      ensures Tables() == UpdateScreening(old(Tables()), id, candidate, status)
      ensures reply == Updated <==> Tables() != old(Tables())
      ensures reply == Conflict <==> status != Active && CountInconsistent(old(Tables()), id, candidate)
    {
      if status != Completed && status != Rejected && status != Withdrawn { return BadRequest; }
      if id !in screenings || screenings[id].pair.candidate != candidate { return NotFound; }
      var was := screenings[id];
      if was.status == Active {
        if candidate !in candidates || candidates[candidate].count <= 0 { return Conflict; }
        candidates := candidates[candidate := candidates[candidate].(count := candidates[candidate].count - 1)];
      }
      screenings := screenings[id := was.(status := status)];
      audit := audit + [Screened(was.pair, id, status)];
      assert |audit| != |old(audit)|;
      reply := Updated;
    }

    /** Sets the rows of a pair and appends the audit row, as the shared tail of the pipeline handlers. */
    method Put(p: Pair, t: Track, e: Event)
      requires Valid()
      modifies this`tracks, this`audit
      ensures Valid() && Tables() == Write(old(Tables()), p, t, e) && Tables() != old(Tables())
    {
      tracks := tracks[p := t];
      audit := audit + [e];
      assert |audit| != |old(audit)|;
    }

    method SubmitCandidate(p: Pair, author: int, recipient: Option<int>) returns (reply: Reply)
      requires Valid()
      modifies this
      ensures Valid()
      ensures Tables() == if reply == BadRequest then old(Tables()) else Submit(old(Tables()), p, author, recipient)
      ensures reply == BadRequest <==> p.candidate == 0 || p.requirement == 0 || author == 0
      ensures reply == Created <==> Tables() != old(Tables())
      ensures reply == Conflict ==> At(old(Tables()), p).submitted
    {
      if p.candidate == 0 || p.requirement == 0 || author == 0 { return BadRequest; }
      if !Known(Tables(), p) || author !in users { return NotFound; }
      if !CompletedScreening(Tables(), p) { return Unprocessable; }
      var rows := if p in tracks then tracks[p] else NO_ROWS;
      if rows.submitted { return Conflict; }
      if recipient.None? { return Unprocessable; }
      if recipient.value !in clients { return NotFound; }
      Put(p, rows.(submitted := true), Submitted(p));
      reply := Created;
    }

    method CreateFeedback(p: Pair, author: int, outcome: Outcome, reason: Reason) returns (reply: Reply)
      requires Valid()
      modifies this
      ensures Valid() && Tables() == GiveFeedback(old(Tables()), p, author, outcome, reason)
      ensures reply == Created <==> Tables() != old(Tables())
      ensures reply == BadRequest <==> !ReasonOk(outcome, reason)
    {
      if reason == UnknownReason { return BadRequest; }
      if (outcome == Hold || outcome == Reject) && reason != KnownReason { return BadRequest; }
      var rows := if p in tracks then tracks[p] else NO_ROWS;
      if !rows.submitted || author !in users { return NotFound; }
      Put(p, rows.(feedback := true), FeedbackGiven(p));
      reply := Created;
    }

    /** While an active interview of the pair exists, a new one is refused whatever its own status. */
    method ScheduleInterview(p: Pair, status: InterviewStatus) returns (reply: Reply, id: int)
      requires Valid()
      modifies this
      ensures Valid() && id == old(serial)
      ensures Tables() == if At(old(Tables()), p).submitted && At(old(Tables()), p).feedback && reply != BadRequest && reply != Conflict
                          then InsertInterview(old(Tables()), p, id, status) else old(Tables())
      ensures reply == BadRequest <==> p.candidate <= 0 || p.requirement <= 0
      ensures reply == Conflict <==>
                && p.candidate > 0 && p.requirement > 0 && Known(old(Tables()), p)
                && At(old(Tables()), p).submitted && At(old(Tables()), p).feedback && ActiveElsewhere(old(interviews), p, id)
      ensures reply == Created <==> Tables() != old(Tables())
    {
      id := serial;
      if p.candidate <= 0 || p.requirement <= 0 { return BadRequest, id; }
      if !Known(Tables(), p) { return NotFound, id; }
      var rows := if p in tracks then tracks[p] else NO_ROWS;
      if !rows.submitted { return Unprocessable, id; }
      if !rows.feedback { return Unprocessable, id; }
      if ActiveElsewhere(interviews, p, id) { return Conflict, id; }
      interviews := interviews[id := Interview(p, status)];
      serial := serial + 1;
      audit := audit + [Interviewed(p, id, status)];
      assert |audit| != |old(audit)|;
      reply := Created;
    }

    method ReviseInterview(id: int, p: Pair, status: InterviewStatus) returns (reply: Reply)
      requires Valid()
      modifies this
      ensures Valid()
      ensures Tables() == if reply == BadRequest then old(Tables()) else UpdateInterview(old(Tables()), id, p, status)
      ensures reply == Updated <==> Tables() != old(Tables())
      ensures reply == BadRequest <==> p.candidate <= 0 || p.requirement <= 0 || (id in old(interviews) && old(interviews)[id].pair != p)
    {
      if p.candidate <= 0 || p.requirement <= 0 { return BadRequest; }
      if id !in interviews { return NotFound; }
      if p != interviews[id].pair { return BadRequest; }
      if ActiveStatus(status) && ActiveElsewhere(interviews, p, id) { return Conflict; }
      if !Known(Tables(), p) { return NotFound; }
      interviews := interviews[id := Interview(p, status)];
      audit := audit + [Interviewed(p, id, status)];
      assert |audit| != |old(audit)|;
      reply := Updated;
    }

    method CreateSelection(p: Pair, selected: bool) returns (reply: Reply)
      requires Valid()
      modifies this
      ensures Valid() && Tables() == Decide(old(Tables()), p, selected)
      ensures reply == Created <==> Tables() != old(Tables())
      ensures reply == Conflict ==> At(old(Tables()), p).selection.Some?
    {
      if !Known(Tables(), p) { return NotFound; }
      if !CompletedInterview(Tables(), p) { return Unprocessable; }
      var rows := if p in tracks then tracks[p] else NO_ROWS;
      if rows.selection.Some? { return Conflict; }
      Put(p, rows.(selection := Some(selected)), Decided(p, selected));
      reply := Created;
    }

    method CreateOffer(p: Pair) returns (reply: Reply)
      requires Valid()
      modifies this
      ensures Valid()
      ensures Tables() == if reply == BadRequest then old(Tables()) else MakeOffer(old(Tables()), p)
      ensures reply == BadRequest <==> p.candidate == 0 || p.requirement == 0
      ensures reply == Created <==> Tables() != old(Tables())
    {
      if p.candidate == 0 || p.requirement == 0 { return BadRequest; }
      if !Known(Tables(), p) { return NotFound; }
      var rows := if p in tracks then tracks[p] else NO_ROWS;
      if rows.offer.Some? { return Conflict; }
      if rows.selection.None? || !rows.selection.value { return NotFound; }
      Put(p, rows.(offer := Some(false)), Offered(p));
      reply := Created;
    }

    method UpdateOffer(p: Pair, accepted: bool) returns (reply: Reply)
      requires Valid()
      modifies this
      ensures Valid() && Tables() == AnswerOffer(old(Tables()), p, accepted)
      ensures reply == Updated <==> Tables() != old(Tables())
    {
      var rows := if p in tracks then tracks[p] else NO_ROWS;
      if rows.offer.None? { return NotFound; }
      Put(p, rows.(offer := Some(accepted)), OfferAnswered(p, accepted));
      reply := Updated;
    }

    method CreateJoiningRecord(p: Pair, j: Joining) returns (reply: Reply)
      requires Valid()
      modifies this
      ensures Valid()
      ensures Tables() == if p.candidate == 0 || p.requirement == 0 then old(Tables()) else CreateJoining(old(Tables()), p, j)
      ensures reply == Created <==> Tables() != old(Tables())
    {
      if p.candidate == 0 || p.requirement == 0 { return BadRequest; }
      if j.joined && j.date.None? { return BadRequest; }
      if !Known(Tables(), p) { return NotFound; }
      var rows := if p in tracks then tracks[p] else NO_ROWS;
      if rows.joining.Some? { return Conflict; }
      if rows.offer.None? || !rows.offer.value { return NotFound; }
      Put(p, rows.(joining := Some(j)), JoiningSet(p, j.joined));
      reply := Created;
    }

    method UpdateJoiningRecord(p: Pair, j: Joining) returns (reply: Reply)
      requires Valid()
      modifies this
      ensures Valid() && Tables() == UpdateJoining(old(Tables()), p, j)
      ensures reply == Updated <==> Tables() != old(Tables())
      ensures reply == BadRequest <==> j.joined && j.date.None?
    {
      if j.joined && j.date.None? { return BadRequest; }
      var rows := if p in tracks then tracks[p] else NO_ROWS;
      if rows.joining.None? { return NotFound; }
      Put(p, rows.(joining := Some(j)), JoiningSet(p, j.joined));
      reply := Updated;
    }

    /** `amountOk` and `currencyOk` are the two pattern checks on the trimmed input. */
    method CreateBilling(p: Pair, amountOk: bool, currencyOk: bool) returns (reply: Reply)
      requires Valid()
      modifies this
      ensures Valid()
      ensures reply == BadRequest <==> p.candidate == 0 || p.requirement == 0 || !amountOk || !currencyOk
      ensures Tables() == if reply == BadRequest || !Known(old(Tables()), p) then old(Tables())
                          else Bill(old(Tables()), p, old(requirements)[p.requirement])
      ensures reply == Created <==> Tables() != old(Tables())
      ensures reply == Created ==>
                && p in old(tracks) && p.requirement in old(requirements) && old(tracks)[p].joining.Some?
                && old(tracks)[p].joining.value.joined && old(tracks)[p].joining.value.date.Some?
                && p in tracks && tracks[p].billing == Some(Billing(old(requirements)[p.requirement], old(tracks)[p].joining.value.date.value))
                && tracks == old(tracks)[p := old(tracks)[p].(billing := tracks[p].billing)]
    {
      if p.candidate == 0 || p.requirement == 0 { return BadRequest; }
      if !amountOk { return BadRequest; }
      if !currencyOk { return BadRequest; }
      if !Known(Tables(), p) { return NotFound; }
      var rows := if p in tracks then tracks[p] else NO_ROWS;
      if rows.joining.None? || !rows.joining.value.joined || rows.joining.value.date.None? { return NotFound; }
      var client := requirements[p.requirement];
      if rows.billing.Some? { return Conflict; }
      if client !in clients { return InternalError; }
      Put(p, rows.(billing := Some(Billing(client, rows.joining.value.date.value))), Billed(p));
      reply := Created;
    }

    /** One joined row of the worklist query: no row when a join has no partner, a failed scan when
        the date is missing. */
    method ScanRow(p: Pair) returns (failed: bool, row: Option<Item>)
      requires p in JoinedPairs(Tables())
      ensures row.Some? <==> Listable(Tables(), p)
      ensures row.Some? ==> row.value.pair == p && ListedRight(Tables(), row.value)
      ensures failed <==> Undated(Tables(), p)
    {
      failed, row := false, None;
      var t := tracks[p];
      if Known(Tables(), p) && requirements[p.requirement] in clients {
        if t.joining.value.date.None? { return true, None; }
        var billedOn := if t.billing.Some? then Some(t.billing.value.date) else None;
        row := Some(Item(p, requirements[p.requirement], t.joining.value.date.value, t.billing.Some?, billedOn));
      }
    }

    /** The worklist query and its scanning loop. It fails exactly on a joined row that has its partners and no
        date, and otherwise lists each joined pair with its partners once. The database hands the rows over in
        any order. */
    method ListWorklist() returns (r: Option<seq<Item>>)
      ensures IsWorklist(Tables(), r)
    {
      assert forall p :: Undated(Tables(), p) ==> p in JoinedPairs(Tables());
      hide ListedRight, JoinedPairs, Distinct, AllRight, PairsOf, Tables, Undated, Listable;
      var items: seq<Item> := [];
      var todo := JoinedPairs(Tables());
      NothingListed(Tables());
      while todo != {}
        invariant todo <= JoinedPairs(Tables()) && PairsOf(items) <= JoinedPairs(Tables()) - todo
        invariant Distinct(items) && AllRight(Tables(), items)
        invariant forall p :: p in JoinedPairs(Tables()) - todo ==> (p in PairsOf(items) <==> Listable(Tables(), p))
        invariant forall p :: p in JoinedPairs(Tables()) - todo ==> !Undated(Tables(), p)
        decreases |todo|
      {
        var p :| p in todo;
        todo := todo - {p};
        var failed, row := ScanRow(p);
        if failed { return None; }
        if row.Some? {
          ItemAppended(Tables(), items, row.value);
          items := items + [row.value];
        }
      }
      r := Some(items);
    }
  }

  /** A joined row that finds its partners and has no date. */
  predicate Undated(d: Db, p: Pair) {
    && p in JoinedPairs(d) && Known(d, p) && d.requirements[p.requirement] in d.clients
    && d.tracks[p].joining.value.date.None?
  }

  /** What the listing returns: a failure exactly where a row is undated, and otherwise every pair the joins
      keep, once, with its own values. */
  ghost predicate IsWorklist(d: Db, r: Option<seq<Item>>) {
    && (r.None? <==> exists p :: Undated(d, p))
    && (r.Some? ==> Distinct(r.value) && AllRight(d, r.value)
                    && forall p :: p in PairsOf(r.value) <==> p in JoinedPairs(d) && Listable(d, p))
  }

  /** In every reachable state the listing succeeds and is exact. */
  lemma ReachableWorklistIsExact(actions: seq<Action>, r: Option<seq<Item>>)
    requires IsWorklist(Run(START, actions).db, r)
    ensures r.Some? && ExactListing(Run(START, actions).db, r.value)
  {
    RunKeepsLinked(START, actions);
    var d := Run(START, actions).db;
    hide Run, Distinct, AllRight, PairsOf;
    if r.Some? {
      forall p | p in JoinedPairs(d) ensures p in PairsOf(r.value) { assert Listable(d, p); }
      assert PairsOf(r.value) == JoinedPairs(d);
    }
  }

  lemma NothingListed(d: Db)
    ensures Distinct([]) && AllRight(d, []) && PairsOf([]) == {}
  {}
}
