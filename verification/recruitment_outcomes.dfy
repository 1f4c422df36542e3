/** What each pipeline transaction accepts and writes, told from the tables before it, and what no later one
    takes back. */
module RecruitmentOutcomes {
  import opened Base
  import opened Recruitment

  // ---- One transaction ----

  /** The rows of this pair changed, one audit row was appended, and nothing else. */
  ghost predicate Wrote(d: Db, e: Db, p: Pair, event: Event) {
    && e.users == d.users && e.clients == d.clients && e.requirements == d.requirements && e.candidates == d.candidates
    && e.screenings == d.screenings && e.interviews == d.interviews && e.audit == d.audit + [event]
    && e.tracks.Keys == d.tracks.Keys + {p} && forall q :: q in d.tracks && q != p ==> e.tracks[q] == d.tracks[q]
  }

  /** The pair has a submission row, a feedback row, and so on. */
  predicate HasSubmission(d: Db, p: Pair) { p in d.tracks && d.tracks[p].submitted }

  predicate HasFeedback(d: Db, p: Pair) { p in d.tracks && d.tracks[p].feedback }

  function SelectionOf(d: Db, p: Pair): Option<bool> { if p in d.tracks then d.tracks[p].selection else None }

  function OfferOf(d: Db, p: Pair): Option<bool> { if p in d.tracks then d.tracks[p].offer else None }

  function JoiningOf(d: Db, p: Pair): Option<Joining> { if p in d.tracks then d.tracks[p].joining else None }

  function BillingOf(d: Db, p: Pair): Option<Billing> { if p in d.tracks then d.tracks[p].billing else None }

  /** The six tables with rows of a pair. */
  datatype Table = Submissions | Feedbacks | Selections | Offers | Joinings | Billings

  /** The pair's rows stay as they are in every table but one. */
  ghost predicate OthersStay(d: Db, e: Db, p: Pair, changed: Table) {
    && (changed == Submissions || HasSubmission(e, p) == HasSubmission(d, p)) && (changed == Feedbacks || HasFeedback(e, p) == HasFeedback(d, p))
    && (changed == Selections || SelectionOf(e, p) == SelectionOf(d, p)) && (changed == Offers || OfferOf(e, p) == OfferOf(d, p))
    && (changed == Joinings || JoiningOf(e, p) == JoiningOf(d, p)) && (changed == Billings || BillingOf(e, p) == BillingOf(d, p))
  }

  predicate BothKnown(d: Db, p: Pair) { p.candidate in d.candidates && p.requirement in d.requirements }

  /** A submission needs a completed screening, an author, a client to send it to, and no earlier one. */
  lemma SubmissionOutcome(d: Db, p: Pair, author: int, to: Option<int>)
    ensures var e := ApplyTrack(d, DoSubmit(p, author, to));
            && (e != d <==> BothKnown(d, p) && author in d.users && to.Some? && to.value in d.clients && !HasSubmission(d, p)
                            && exists s :: s in d.screenings && d.screenings[s] == Screening(p, Completed))
            && (e != d ==> Wrote(d, e, p, Submitted(p)) && HasSubmission(e, p) && OthersStay(d, e, p, Submissions))
  {
    AuditGrows(d, Submitted(p));
  }

  lemma AuditGrows(d: Db, event: Event)
    ensures d.audit + [event] != d.audit
  {
    assert |d.audit + [event]| == |d.audit| + 1;
  }

  /** Feedback needs a submission; anything but a shortlisting needs a known reason. */
  lemma FeedbackOutcome(d: Db, p: Pair, author: int, o: Outcome, r: Reason)
    ensures var e := ApplyTrack(d, DoFeedback(p, author, o, r));
            && (e != d <==> HasSubmission(d, p) && author in d.users && (r == KnownReason || (o == Shortlist && r == NoReason)))
            && (e != d ==> Wrote(d, e, p, FeedbackGiven(p)) && HasFeedback(e, p) && OthersStay(d, e, p, Feedbacks))
  {
    AuditGrows(d, FeedbackGiven(p));
  }

  /** A decision needs a completed interview and is made once. */
  lemma DecisionOutcome(d: Db, p: Pair, selected: bool)
    ensures var e := ApplyTrack(d, DoDecide(p, selected));
            && (e != d <==> BothKnown(d, p) && SelectionOf(d, p).None?
                            && exists i :: i in d.interviews && d.interviews[i] == Interview(p, Done))
            && (e != d ==> Wrote(d, e, p, Decided(p, selected)) && SelectionOf(e, p) == Some(selected) && OthersStay(d, e, p, Selections))
  {
    AuditGrows(d, Decided(p, selected));
  }

  /** An offer needs a positive decision and starts unanswered. */
  lemma OfferOutcome(d: Db, p: Pair)
    ensures var e := ApplyTrack(d, DoOffer(p));
            && (e != d <==> BothKnown(d, p) && SelectionOf(d, p) == Some(true) && OfferOf(d, p).None?)
            && (e != d ==> Wrote(d, e, p, Offered(p)) && OfferOf(e, p) == Some(false) && OthersStay(d, e, p, Offers))
  {
    AuditGrows(d, Offered(p));
  }

  lemma AnswerOutcome(d: Db, p: Pair, accepted: bool)
    ensures var e := ApplyTrack(d, DoAnswer(p, accepted));
            && (e != d <==> OfferOf(d, p).Some?)
            && (e != d ==> Wrote(d, e, p, OfferAnswered(p, accepted)) && OfferOf(e, p) == Some(accepted) && OthersStay(d, e, p, Offers))
  {
    AuditGrows(d, OfferAnswered(p, accepted));
  }

  /** A joining needs an accepted offer, and a date once it is reported as joined. */
  lemma JoiningOutcome(d: Db, p: Pair, j: Joining)
    ensures var e := ApplyTrack(d, DoJoin(p, j));
            && (e != d <==> BothKnown(d, p) && OfferOf(d, p) == Some(true) && JoiningOf(d, p).None? && (j.joined ==> j.date.Some?))
            && (e != d ==> Wrote(d, e, p, JoiningSet(p, j.joined)) && JoiningOf(e, p) == Some(j) && OthersStay(d, e, p, Joinings))
  {
    AuditGrows(d, JoiningSet(p, j.joined));
  }

  lemma RejoiningOutcome(d: Db, p: Pair, j: Joining)
    ensures var e := ApplyTrack(d, DoRejoin(p, j));
            && (e != d <==> JoiningOf(d, p).Some? && (j.joined ==> j.date.Some?))
            && (e != d ==> Wrote(d, e, p, JoiningSet(p, j.joined)) && JoiningOf(e, p) == Some(j) && OthersStay(d, e, p, Joinings))
  {
    AuditGrows(d, JoiningSet(p, j.joined));
  }

  /** A billing needs a dated joining that stands today; it takes that date, and the client it is given. */
  lemma BillingOutcome(d: Db, p: Pair, client: int)
    ensures var e, j := ApplyTrack(d, DoBill(p, client)), JoiningOf(d, p);
            && (e != d <==> BothKnown(d, p) && client in d.clients && j.Some? && j.value.joined && j.value.date.Some? && BillingOf(d, p).None?)
            && (e != d ==> Wrote(d, e, p, Billed(p)) && BillingOf(e, p) == Some(Billing(client, j.value.date.value))
                           && OthersStay(d, e, p, Billings))
  {
    AuditGrows(d, Billed(p));
  }

  // ---- Screenings and interviews ----

  /** A screening takes one of the candidate's places, and is active under its own id. */
  lemma ScreeningOutcome(d: Db, p: Pair, recruiter: int, id: int)
    ensures var e := ApplyScreening(d, DoCreateScreening(p, recruiter, id));
            && (e != d <==> BothKnown(d, p) && recruiter in d.users && id !in d.screenings
                            && d.candidates[p.candidate].count < d.candidates[p.candidate].limit)
            && (e != d ==>
                  && e.screenings == d.screenings[id := Screening(p, Active)] && e.audit == d.audit + [Screened(p, id, Active)]
                  && e.candidates == d.candidates[p.candidate := Candidate(d.candidates[p.candidate].count + 1, d.candidates[p.candidate].limit)]
                  && e.tracks == d.tracks && e.interviews == d.interviews && e.requirements == d.requirements)
  {
    AuditGrows(d, Screened(p, id, Active));
  }

  /** An update stores the status it is given, and gives the place back exactly when the screening was active. */
  lemma ScreeningUpdateOutcome(d: Db, id: int, candidate: int, status: ScreeningStatus)
    requires id in d.screenings && candidate in d.candidates
    ensures var e := ApplyScreening(d, DoUpdateScreening(id, candidate, status));
            && (e != d <==> status != Active && d.screenings[id].pair.candidate == candidate
                            && (d.screenings[id].status == Active ==> d.candidates[candidate].count > 0))
            && (e != d ==>
                  && e.screenings == d.screenings[id := Screening(d.screenings[id].pair, status)]
                  && e.audit == d.audit + [Screened(d.screenings[id].pair, id, status)]
                  && e.candidates.Keys == d.candidates.Keys
                  && (forall c :: c in d.candidates && c != candidate ==> e.candidates[c] == d.candidates[c])
                  && e.candidates[candidate].limit == d.candidates[candidate].limit
                  && e.candidates[candidate].count
                     == (if d.screenings[id].status == Active then d.candidates[candidate].count - 1 else d.candidates[candidate].count)
                  && e.tracks == d.tracks && e.interviews == d.interviews && e.requirements == d.requirements)
  {
    AuditGrows(d, Screened(d.screenings[id].pair, id, status));
  }

  /** Some other interview of the pair is scheduled or rescheduled. */
  predicate AnotherActive(d: Db, p: Pair, id: int) {
    exists i :: i in d.interviews && i != id && d.interviews[i].pair == p && d.interviews[i].status in {Scheduled, Rescheduled}
  }

  lemma InterviewOutcome(d: Db, p: Pair, id: int, status: InterviewStatus)
    ensures var e := InsertInterview(d, p, id, status);
            && (e != d <==> BothKnown(d, p) && id !in d.interviews && !(status in {Scheduled, Rescheduled} && AnotherActive(d, p, id)))
            && (e != d ==> e == d.(interviews := d.interviews[id := Interview(p, status)], audit := d.audit + [Interviewed(p, id, status)]))
  {
    AuditGrows(d, Interviewed(p, id, status));
    assert AnotherActive(d, p, id) <==> ActiveElsewhere(d.interviews, p, id);
  }

  lemma RevisionOutcome(d: Db, p: Pair, id: int, status: InterviewStatus)
    ensures var e := UpdateInterview(d, id, p, status);
            && (e != d <==> BothKnown(d, p) && id in d.interviews && d.interviews[id].pair == p
                            && !(status in {Scheduled, Rescheduled} && AnotherActive(d, p, id)))
            && (e != d ==> e == d.(interviews := d.interviews[id := Interview(p, status)], audit := d.audit + [Interviewed(p, id, status)]))
  {
    AuditGrows(d, Interviewed(p, id, status));
    assert AnotherActive(d, p, id) <==> ActiveElsewhere(d.interviews, p, id);
  }

  /** An interview request that nobody overtakes inserts its interview exactly behind a submission and feedback. */
  lemma UndisturbedInterview(w: World, r: int, p: Pair, id: int, status: InterviewStatus)
    requires r !in w.inflight
    ensures var x := ApplyInterview(ApplyInterview(ApplyInterview(w, SeeSubmission(r, p)), SeeFeedback(r)), DoInsertInterview(r, id, status));
            if HasSubmission(w.db, p) && HasFeedback(w.db, p) then x == World(InsertInterview(w.db, p, id, status), w.inflight) else x.db == w.db
    ensures ApplyInterview(w, DoUpdateInterview(id, p, status)) == World(UpdateInterview(w.db, id, p, status), w.inflight)
  {
    assert w.inflight[r := Scheduling(p, true)] - {r} == w.inflight;
    hide InsertInterview, UpdateInterview;
  }

  // ---- Master data ----

  /** Users, clients, requirements of an existing client and new candidates are entered. */
  lemma EntryOutcome(d: Db, id: int, client: int)
    ensures ApplyMaster(d, HireUser(id)) == d.(users := d.users + {id}) && ApplyMaster(d, AddClient(id)) == d.(clients := d.clients + {id})
    ensures ApplyMaster(d, PutRequirement(id, client)) == if client in d.clients then d.(requirements := d.requirements[id := client]) else d
    ensures ApplyMaster(d, AddCandidate(id)) == if id in d.candidates then d else d.(candidates := d.candidates[id := Candidate(0, 3)])
  {}

  /** Some screening, interview or row of a pair refers to it. */
  predicate CandidateHasRows(d: Db, c: int) {
    || (exists s :: s in d.screenings && d.screenings[s].pair.candidate == c)
    || (exists i :: i in d.interviews && d.interviews[i].pair.candidate == c) || exists p :: p in d.tracks && p.candidate == c
  }

  predicate RequirementHasRows(d: Db, r: int) {
    || (exists s :: s in d.screenings && d.screenings[s].pair.requirement == r)
    || (exists i :: i in d.interviews && d.interviews[i].pair.requirement == r) || exists p :: p in d.tracks && p.requirement == r
  }

  /** A client goes exactly when no requirement and no billing names it, a requirement or a candidate when no row
      of the pipeline does. */
  lemma RemovalOutcome(d: Db, id: int)
    ensures ApplyMaster(d, DropClient(id))
            == if (exists r :: r in d.requirements && d.requirements[r] == id)
                  || (exists p :: BillingOf(d, p).Some? && BillingOf(d, p).value.client == id) then d else d.(clients := d.clients - {id})
    ensures ApplyMaster(d, DropRequirement(id)) == if RequirementHasRows(d, id) then d else d.(requirements := d.requirements - {id})
    ensures ApplyMaster(d, DropCandidate(id)) == if CandidateHasRows(d, id) then d else d.(candidates := d.candidates - {id})
  {
    if p :| p in d.tracks && d.tracks[p].billing.Some? && d.tracks[p].billing.value.client == id { assert BillingOf(d, p).Some?; }
  }

  /** A new candidate may be screened for three requirements at once, and no fourth. */
  lemma NewCandidateHasThreePlaces(d: Db, c: int, p: Pair, q: Pair, r: Pair, s: Pair, recruiter: int, ids: seq<int>)
    requires c !in d.candidates && recruiter in d.users && |ids| == 4
    requires p.candidate == c && q.candidate == c && r.candidate == c && s.candidate == c
    requires {p.requirement, q.requirement, r.requirement, s.requirement} <= d.requirements.Keys
    requires forall i :: 0 <= i < |ids| ==> ids[i] !in d.screenings
    requires forall i, j :: 0 <= i < j < |ids| ==> ids[i] != ids[j]
    ensures var d0 := ApplyMaster(d, AddCandidate(c));
            var d1 := CreateScreening(d0, p, recruiter, ids[0]);
            var d2 := CreateScreening(d1, q, recruiter, ids[1]);
            var d3 := CreateScreening(d2, r, recruiter, ids[2]);
            d1 != d0 && d2 != d1 && d3 != d2 && CreateScreening(d3, s, recruiter, ids[3]) == d3
  {
    var d0 := ApplyMaster(d, AddCandidate(c));
    var d1 := CreateScreening(d0, p, recruiter, ids[0]);
    var d2 := CreateScreening(d1, q, recruiter, ids[1]);
    var d3 := CreateScreening(d2, r, recruiter, ids[2]);
    ScreeningOutcome(d0, p, recruiter, ids[0]);
    ScreeningOutcome(d1, q, recruiter, ids[1]);
    ScreeningOutcome(d2, r, recruiter, ids[2]);
    ScreeningOutcome(d3, s, recruiter, ids[3]);
    hide CreateScreening;
  }

  // ---- What no later step takes back ----

  /** Submission, feedback, decision and billing are as they were, where they were; an offer and a joining
      may have been answered or changed, and are still there. */
  ghost predicate Kept(d: Db, e: Db, p: Pair) {
    && (HasSubmission(d, p) ==> HasSubmission(e, p)) && (HasFeedback(d, p) ==> HasFeedback(e, p))
    && (SelectionOf(d, p).Some? ==> SelectionOf(e, p) == SelectionOf(d, p))
    && (OfferOf(d, p).Some? ==> OfferOf(e, p).Some?) && (JoiningOf(d, p).Some? ==> JoiningOf(e, p).Some?)
    && (BillingOf(d, p).Some? ==> BillingOf(e, p) == BillingOf(d, p))
  }

  lemma TrackKeepsRows(d: Db, a: TrackAction, p: Pair)
    ensures Kept(d, ApplyTrack(d, a), p)
  {
    match a
    case DoSubmit(q, author, to) => SubmissionOutcome(d, q, author, to); hide ApplyTrack;
    case DoFeedback(q, author, o, r) => FeedbackOutcome(d, q, author, o, r); hide ApplyTrack;
    case DoDecide(q, selected) => DecisionOutcome(d, q, selected); hide ApplyTrack;
    case DoOffer(q) => OfferOutcome(d, q); hide ApplyTrack;
    case DoAnswer(q, accepted) => AnswerOutcome(d, q, accepted); hide ApplyTrack;
    case DoJoin(q, j) => JoiningOutcome(d, q, j); hide ApplyTrack;
    case DoRejoin(q, j) => RejoiningOutcome(d, q, j); hide ApplyTrack;
    case DoBill(q, client) => BillingOutcome(d, q, client); hide ApplyTrack;
  }

  lemma StepKeepsRows(w: World, a: Action, p: Pair)
    ensures Kept(w.db, Step(w, a).db, p)
  {
    hide ApplyMaster, ApplyScreening, ApplyInterview, ApplyTrack;
    match a
    case OnMaster(m) => MasterFrame(w.db, m);
    case OnScreening(m) => ScreeningFrame(w.db, m);
    case OnInterview(m) => InterviewFrame(w, m);
    case OnTrack(m) => TrackKeepsRows(w.db, m, p);
  }

  /** In every run a submission, a feedback, a decision and a billing row never change again. */
  lemma {:induction false} RowsAreFinal(w: World, actions: seq<Action>, p: Pair)
    ensures Kept(w.db, Run(w, actions).db, p)
    decreases actions
  {
    hide Kept, Step;
    KeptItself(w.db, p);
    if actions != [] {
      StepKeepsRows(w, actions[0], p);
      RowsAreFinal(Step(w, actions[0]), actions[1..], p);
      KeptOn(w.db, Step(w, actions[0]).db, Run(w, actions).db, p);
    }
  }

  lemma KeptItself(d: Db, p: Pair)
    ensures Kept(d, d, p)
  {}

  lemma KeptOn(d: Db, e: Db, f: Db, p: Pair)
    requires Kept(d, e, p) && Kept(e, f, p)
    ensures Kept(d, f, p)
  {}

  /** Every billing row names a client that exists, and a candidate and a requirement that do. */
  ghost predicate BilledPartiesExist(d: Db) {
    forall p :: p in d.tracks && d.tracks[p].billing.Some? ==> d.tracks[p].billing.value.client in d.clients && BothKnown(d, p)
  }

  lemma MasterKeepsParties(d: Db, a: MasterAction)
    requires BilledPartiesExist(d)
    ensures BilledPartiesExist(ApplyMaster(d, a))
  {
    var e := ApplyMaster(d, a);
    forall p | p in e.tracks && e.tracks[p].billing.Some? ensures e.tracks[p].billing.value.client in e.clients && BothKnown(e, p) {
      assert p in d.tracks && d.tracks[p].billing.Some?;
    }
  }

  lemma TrackKeepsParties(d: Db, a: TrackAction)
    requires BilledPartiesExist(d)
    ensures BilledPartiesExist(ApplyTrack(d, a))
  {}

  lemma ScreeningKeepsParties(d: Db, a: ScreeningAction)
    requires BilledPartiesExist(d)
    ensures BilledPartiesExist(ApplyScreening(d, a))
  {
    var e := ApplyScreening(d, a);
    ScreeningFrame(d, a);
    assert e.candidates.Keys == d.candidates.Keys;
    hide ApplyScreening;
  }

  /** In every run the parties of a billing row exist for as long as it does, which is forever. */
  lemma {:induction false} BilledPartiesStay(w: World, actions: seq<Action>)
    requires BilledPartiesExist(w.db)
    ensures BilledPartiesExist(Run(w, actions).db)
    decreases actions
  {
    hide BilledPartiesExist, Step;
    if actions != [] {
      StepKeepsParties(w, actions[0]);
      BilledPartiesStay(Step(w, actions[0]), actions[1..]);
    }
  }

  lemma StepKeepsParties(w: World, a: Action)
    requires BilledPartiesExist(w.db)
    ensures BilledPartiesExist(Step(w, a).db)
  {
    hide ApplyMaster, ApplyScreening, ApplyInterview, ApplyTrack;
    match a
    case OnMaster(m) => MasterKeepsParties(w.db, m);
    case OnScreening(m) => ScreeningKeepsParties(w.db, m);
    case OnInterview(m) => InterviewFrame(w, m);
    case OnTrack(m) => TrackKeepsParties(w.db, m);
  }

  /** A billing row of a reachable state is the same in every continuation, its client still exists there, and so
      do its candidate and its requirement. */
  lemma BillingIsFinal(actions: seq<Action>, more: seq<Action>, p: Pair)
    requires BillingOf(Run(START, actions).db, p).Some?
    ensures var d, e := Run(START, actions).db, Run(Run(START, actions), more).db;
            BillingOf(e, p) == BillingOf(d, p) && BillingOf(d, p).value.client in e.clients && BothKnown(e, p)
  {
    BilledPartiesStay(START, actions);
    BilledPartiesStay(Run(START, actions), more);
    RowsAreFinal(Run(START, actions), more, p);
    hide Run;
  }
}
