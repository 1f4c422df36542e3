/** The recruitment pipeline of one tenant database: screening, submission, feedback, interview,
    selection, offer, joining and billing. Every function in the first part is one database
    transaction; a refused transaction leaves the database as it was. */
module Recruitment {
  import opened Base

  datatype Pair = Pair(candidate: int, requirement: int)

  datatype ScreeningStatus = Active | Completed | Rejected | Withdrawn

  datatype InterviewStatus = Scheduled | Done | Cancelled | Rescheduled | NoShow

  datatype Candidate = Candidate(count: int, limit: int)

  datatype Screening = Screening(pair: Pair, status: ScreeningStatus)

  datatype Interview = Interview(pair: Pair, status: InterviewStatus)

  datatype Joining = Joining(date: Option<int>, joined: bool)

  datatype Billing = Billing(client: int, date: int)

  datatype Outcome = Shortlist | Hold | Reject

  datatype Reason = NoReason | KnownReason | UnknownReason

  /** The rows of one candidate x requirement in the six tables that carry a unique index on that
      pair (for feedback: whether there is any). A row that is present is error 23505 on INSERT. */
  datatype Track = Track(
    submitted: bool,
    feedback: bool,
    selection: Option<bool>,
    offer: Option<bool>,
    joining: Option<Joining>,
    billing: Option<Billing>)

  const NO_ROWS := Track(false, false, None, None, None, None)

  /** A row of `audit_events`, written by the transaction it describes. */
  datatype Event =
    | Screened(pair: Pair, screening: int, screeningStatus: ScreeningStatus)
    | Submitted(pair: Pair)
    | FeedbackGiven(pair: Pair)
    | Interviewed(pair: Pair, interview: int, interviewStatus: InterviewStatus)
    | Decided(pair: Pair, selected: bool)
    | Offered(pair: Pair)
    | OfferAnswered(pair: Pair, accepted: bool)
    | JoiningSet(pair: Pair, joined: bool)
    | Billed(pair: Pair)

  datatype Db = Db(
    users: set<int>,
    clients: set<int>,
    requirements: map<int, int>,
    candidates: map<int, Candidate>,
    screenings: map<int, Screening>,
    interviews: map<int, Interview>,
    tracks: map<Pair, Track>,
    audit: seq<Event>)

  const EMPTY := Db({}, {}, map[], map[], map[], map[], map[], [])

  predicate Known(d: Db, p: Pair) {
    p.candidate in d.candidates && p.requirement in d.requirements
  }

  function At(d: Db, p: Pair): Track {
    if p in d.tracks then d.tracks[p] else NO_ROWS
  }

  predicate ActiveStatus(s: InterviewStatus) { s == Scheduled || s == Rescheduled }

  /** Whether the partial unique index on active interviews refuses another active row. */
  predicate ActiveElsewhere(interviews: map<int, Interview>, p: Pair, id: int) {
    exists i :: i in interviews && i != id && interviews[i].pair == p && ActiveStatus(interviews[i].status)
  }

  predicate CompletedScreening(d: Db, p: Pair) {
    exists s :: s in d.screenings && d.screenings[s] == Screening(p, Completed)
  }

  predicate CompletedInterview(d: Db, p: Pair) {
    exists i :: i in d.interviews && d.interviews[i] == Interview(p, Done)
  }

  predicate ReasonOk(o: Outcome, r: Reason) {
    r == KnownReason || (r == NoReason && o == Shortlist)
  }

  // ---- Transactions ----

  function Write(d: Db, p: Pair, t: Track, e: Event): Db {
    d.(tracks := d.tracks[p := t], audit := d.audit + [e])
  }

  function CreateScreening(d: Db, p: Pair, recruiter: int, id: int): Db {
    if !Known(d, p) || recruiter !in d.users || id in d.screenings
       || d.candidates[p.candidate].count >= d.candidates[p.candidate].limit then d
    else
      var c := d.candidates[p.candidate];
      d.(candidates := d.candidates[p.candidate := c.(count := c.count + 1)],
         screenings := d.screenings[id := Screening(p, Active)],
         audit := d.audit + [Screened(p, id, Active)])
  }

  /** The branch that answers "screening count is inconsistent". */
  predicate CountInconsistent(d: Db, id: int, candidate: int) {
    id in d.screenings && d.screenings[id].pair.candidate == candidate && d.screenings[id].status == Active &&
    (candidate !in d.candidates || d.candidates[candidate].count <= 0)
  }

  function UpdateScreening(d: Db, id: int, candidate: int, status: ScreeningStatus): Db {
    if status == Active || id !in d.screenings || d.screenings[id].pair.candidate != candidate
       || CountInconsistent(d, id, candidate) then d
    else
      var s := d.screenings[id];
      d.(candidates := if s.status != Active then d.candidates
                       else d.candidates[candidate := d.candidates[candidate].(count := d.candidates[candidate].count - 1)],
         screenings := d.screenings[id := s.(status := status)],
         audit := d.audit + [Screened(s.pair, id, status)])
  }

  function Submit(d: Db, p: Pair, author: int, recipient: Option<int>): Db {
    if !Known(d, p) || author !in d.users || recipient.None? || recipient.value !in d.clients
       || !CompletedScreening(d, p) || At(d, p).submitted then d
    else Write(d, p, At(d, p).(submitted := true), Submitted(p))
  }

  function GiveFeedback(d: Db, p: Pair, author: int, o: Outcome, r: Reason): Db {
    if !ReasonOk(o, r) || !At(d, p).submitted || author !in d.users then d
    else Write(d, p, At(d, p).(feedback := true), FeedbackGiven(p))
  }

  /** The INSERT of `ScheduleInterview`; its submission and feedback gates run earlier, outside
      this transaction. */
  function InsertInterview(d: Db, p: Pair, id: int, status: InterviewStatus): Db {
    if !Known(d, p) || id in d.interviews || (ActiveStatus(status) && ActiveElsewhere(d.interviews, p, id)) then d
    else d.(interviews := d.interviews[id := Interview(p, status)], audit := d.audit + [Interviewed(p, id, status)])
  }

  function UpdateInterview(d: Db, id: int, p: Pair, status: InterviewStatus): Db {
    if id !in d.interviews || d.interviews[id].pair != p || !Known(d, p)
       || (ActiveStatus(status) && ActiveElsewhere(d.interviews, p, id)) then d
    else d.(interviews := d.interviews[id := Interview(p, status)], audit := d.audit + [Interviewed(p, id, status)])
  }

  function Decide(d: Db, p: Pair, selected: bool): Db {
    if !Known(d, p) || !CompletedInterview(d, p) || At(d, p).selection.Some? then d
    else Write(d, p, At(d, p).(selection := Some(selected)), Decided(p, selected))
  }

  function MakeOffer(d: Db, p: Pair): Db {
    if !Known(d, p) || At(d, p).selection != Some(true) || At(d, p).offer.Some? then d
    else Write(d, p, At(d, p).(offer := Some(false)), Offered(p))
  }

  function AnswerOffer(d: Db, p: Pair, accepted: bool): Db {
    if At(d, p).offer.None? then d
    else Write(d, p, At(d, p).(offer := Some(accepted)), OfferAnswered(p, accepted))
  }

  function CreateJoining(d: Db, p: Pair, j: Joining): Db {
    if (j.joined && j.date.None?) || !Known(d, p) || At(d, p).offer != Some(true) || At(d, p).joining.Some? then d
    else Write(d, p, At(d, p).(joining := Some(j)), JoiningSet(p, j.joined))
  }

  function UpdateJoining(d: Db, p: Pair, j: Joining): Db {
    if (j.joined && j.date.None?) || At(d, p).joining.None? then d
    else Write(d, p, At(d, p).(joining := Some(j)), JoiningSet(p, j.joined))
  }

  /** `client` was read from the requirement before this transaction started. */
  function Bill(d: Db, p: Pair, client: int): Db {
    if !Known(d, p) || client !in d.clients || At(d, p).joining.None? || !At(d, p).joining.value.joined
       || At(d, p).joining.value.date.None? || At(d, p).billing.Some? then d
    else Write(d, p, At(d, p).(billing := Some(Billing(client, At(d, p).joining.value.date.value))), Billed(p))
  }

  /** A row that another row refers to cannot be deleted: these foreign keys do not cascade. */
  predicate CandidateUsed(d: Db, c: int) {
    || (exists s :: s in d.screenings && d.screenings[s].pair.candidate == c)
    || (exists i :: i in d.interviews && d.interviews[i].pair.candidate == c)
    || (exists p :: p in d.tracks && p.candidate == c)
  }

  predicate RequirementUsed(d: Db, r: int) {
    || (exists s :: s in d.screenings && d.screenings[s].pair.requirement == r)
    || (exists i :: i in d.interviews && d.interviews[i].pair.requirement == r)
    || (exists p :: p in d.tracks && p.requirement == r)
  }

  predicate ClientUsed(d: Db, c: int) {
    || (exists r :: r in d.requirements && d.requirements[r] == c)
    || (exists p :: p in d.tracks && d.tracks[p].billing.Some? && d.tracks[p].billing.value.client == c)
  }

  // ---- Interleavings ----

  /** A `ScheduleInterview` request between its gate queries and its INSERT. */
  datatype Scheduling = Scheduling(pair: Pair, feedbackSeen: bool)

  datatype World = World(db: Db, inflight: map<int, Scheduling>)

  datatype MasterAction =
    | HireUser(user: int)
    | AddClient(client: int)
    | DropClient(client: int)
    | PutRequirement(requirement: int, client: int)
    | DropRequirement(requirement: int)
    | AddCandidate(candidate: int)
    | DropCandidate(candidate: int)

  datatype ScreeningAction =
    | DoCreateScreening(pair: Pair, user: int, id: int)
    | DoUpdateScreening(id: int, candidate: int, status: ScreeningStatus)

  datatype InterviewAction =
    | SeeSubmission(request: int, pair: Pair)
    | SeeFeedback(request: int)
    | DoInsertInterview(request: int, id: int, status: InterviewStatus)
    | DoUpdateInterview(id: int, pair: Pair, status: InterviewStatus)

  datatype TrackAction =
    | DoSubmit(pair: Pair, user: int, recipient: Option<int>)
    | DoFeedback(pair: Pair, user: int, outcome: Outcome, reason: Reason)
    | DoDecide(pair: Pair, selected: bool)
    | DoOffer(pair: Pair)
    | DoAnswer(pair: Pair, accepted: bool)
    | DoJoin(pair: Pair, joining: Joining)
    | DoRejoin(pair: Pair, joining: Joining)
    | DoBill(pair: Pair, client: int)

  /** One transaction, or one gate query of `ScheduleInterview`, of some request. */
  datatype Action =
    | OnMaster(master: MasterAction)
    | OnScreening(screening: ScreeningAction)
    | OnInterview(interview: InterviewAction)
    | OnTrack(track: TrackAction)

  const DEFAULT_SCREENING_LIMIT := 3

  function ApplyMaster(d: Db, a: MasterAction): Db {
    match a
    case HireUser(u) => d.(users := d.users + {u})
    case AddClient(c) => d.(clients := d.clients + {c})
    case DropClient(c) => if ClientUsed(d, c) then d else d.(clients := d.clients - {c})
    case PutRequirement(r, c) => if c in d.clients then d.(requirements := d.requirements[r := c]) else d
    case DropRequirement(r) => if RequirementUsed(d, r) then d else d.(requirements := d.requirements - {r})
    case AddCandidate(c) =>
      if c in d.candidates then d else d.(candidates := d.candidates[c := Candidate(0, DEFAULT_SCREENING_LIMIT)])
    case DropCandidate(c) => if CandidateUsed(d, c) then d else d.(candidates := d.candidates - {c})
  }

  function ApplyScreening(d: Db, a: ScreeningAction): Db {
    match a
    case DoCreateScreening(p, u, id) => CreateScreening(d, p, u, id)
    case DoUpdateScreening(id, c, s) => UpdateScreening(d, id, c, s)
  }

  function ApplyInterview(w: World, a: InterviewAction): World {
    match a
    case SeeSubmission(r, p) =>
      if r in w.inflight || !At(w.db, p).submitted then w
      else w.(inflight := w.inflight[r := Scheduling(p, false)])
    case SeeFeedback(r) =>
      if r !in w.inflight || !At(w.db, w.inflight[r].pair).feedback then w
      else w.(inflight := w.inflight[r := w.inflight[r].(feedbackSeen := true)])
    case DoInsertInterview(r, id, s) =>
      if r !in w.inflight || !w.inflight[r].feedbackSeen then w
      else World(InsertInterview(w.db, w.inflight[r].pair, id, s), w.inflight - {r})
    case DoUpdateInterview(id, p, s) => w.(db := UpdateInterview(w.db, id, p, s))
  }

  function ApplyTrack(d: Db, a: TrackAction): Db {
    match a
    case DoSubmit(p, u, to) => Submit(d, p, u, to)
    case DoFeedback(p, u, o, r) => GiveFeedback(d, p, u, o, r)
    case DoDecide(p, b) => Decide(d, p, b)
    case DoOffer(p) => MakeOffer(d, p)
    case DoAnswer(p, b) => AnswerOffer(d, p, b)
    case DoJoin(p, j) => CreateJoining(d, p, j)
    case DoRejoin(p, j) => UpdateJoining(d, p, j)
    case DoBill(p, c) => Bill(d, p, c)
  }

  function Step(w: World, a: Action): World {
    match a
    case OnMaster(m) => w.(db := ApplyMaster(w.db, m))
    case OnScreening(m) => w.(db := ApplyScreening(w.db, m))
    case OnInterview(m) => ApplyInterview(w, m)
    case OnTrack(m) => w.(db := ApplyTrack(w.db, m))
  }

  function Run(w: World, actions: seq<Action>): World
    decreases actions
  {
    if actions == [] then w else Run(Step(w, actions[0]), actions[1..])
  }

  const START := World(EMPTY, map[])

  // ---- Which tables each group of transactions leaves alone ----

  lemma MasterFrame(d: Db, a: MasterAction)
    ensures var e := ApplyMaster(d, a);
            e.screenings == d.screenings && e.interviews == d.interviews && e.tracks == d.tracks && e.audit == d.audit
  {}

  lemma ScreeningFrame(d: Db, a: ScreeningAction)
    ensures var e := ApplyScreening(d, a);
            e.interviews == d.interviews && e.tracks == d.tracks && e.requirements == d.requirements && e.clients == d.clients
  {}

  lemma InterviewFrame(w: World, a: InterviewAction)
    ensures var e := ApplyInterview(w, a).db;
            e.screenings == w.db.screenings && e.tracks == w.db.tracks && e.candidates == w.db.candidates
            && e.requirements == w.db.requirements && e.clients == w.db.clients
  {}

  /** A pipeline transaction is refused, or it writes the rows of its own pair and one audit row. */
  lemma TrackFrame(d: Db, a: TrackAction)
    ensures ApplyTrack(d, a) == d || exists t, e :: ApplyTrack(d, a) == Write(d, a.pair, t, e)
  {}

  // ---- Causal history of billing ----

  /** The place of an event in the pipeline, when it is one of the eight milestones. */
  function Stage(e: Event): Option<nat> {
    match e
    case Screened(_, _, s) => if s == Completed then Some(0) else None
    case Submitted(_) => Some(1)
    case FeedbackGiven(_) => Some(2)
    case Interviewed(_, _, s) => if s == Done then Some(3) else None
    case Decided(_, b) => if b then Some(4) else None
    case Offered(_) => None
    case OfferAnswered(_, b) => if b then Some(5) else None
    case JoiningSet(_, b) => if b then Some(6) else None
    case Billed(_) => Some(7)
  }

  /** How many milestones of `p` the log holds in pipeline order, each after the one before it. */
  function Depth(log: seq<Event>, p: Pair): nat {
    if log == [] then 0
    else
      var e := log[|log| - 1];
      var before := Depth(log[..|log| - 1], p);
      if e.pair == p && Stage(e) == Some(before) then before + 1 else before
  }

  /** Every milestone is preceded by all earlier milestones of its pair. */
  ghost predicate Ordered(log: seq<Event>) {
    forall i :: 0 <= i < |log| && Stage(log[i]).Some? ==> Depth(log[..i], log[i].pair) >= Stage(log[i]).value
  }

  /** The history behind a pair's rows, whichever of them are still true today. */
  ghost predicate TrackBacked(t: Track, depth: nat) {
    && (t.submitted ==> depth >= 2)
    && (t.feedback ==> depth >= 3)
    && (t.selection == Some(true) ==> depth >= 5)
    && (t.offer.Some? ==> depth >= 5)
    && (t.offer == Some(true) ==> depth >= 6)
    && (t.joining.Some? ==> depth >= 6)
    && (t.joining.Some? && t.joining.value.joined ==> depth >= 7)
  }

  ghost predicate TracksBacked(d: Db) {
    forall p :: p in d.tracks ==> TrackBacked(d.tracks[p], Depth(d.audit, p))
  }

  ghost predicate ScreeningsBacked(d: Db) {
    forall s :: s in d.screenings && d.screenings[s].status == Completed ==> Depth(d.audit, d.screenings[s].pair) >= 1
  }

  ghost predicate InterviewsBacked(d: Db) {
    forall i :: i in d.interviews ==>
      Depth(d.audit, d.interviews[i].pair) >= (if d.interviews[i].status == Done then 4 else 3)
  }

  ghost predicate Backed(d: Db) {
    Ordered(d.audit) && TracksBacked(d) && ScreeningsBacked(d) && InterviewsBacked(d)
  }

  lemma LogExtends(log: seq<Event>, e: Event)
    requires Ordered(log)
    requires Stage(e).Some? ==> Depth(log, e.pair) >= Stage(e).value
    ensures Ordered(log + [e])
    ensures forall p :: Depth(log + [e], p) >= Depth(log, p)
    ensures Stage(e).Some? ==> Depth(log + [e], e.pair) > Stage(e).value
  {
    var more := log + [e];
    assert more[..|log|] == log;
    forall i | 0 <= i < |more| && Stage(more[i]).Some? ensures Depth(more[..i], more[i].pair) >= Stage(more[i]).value {
      assert more[..i] == log[..i];
    }
  }

  lemma MasterKeepsBacked(d: Db, a: MasterAction)
    requires Backed(d)
    ensures Backed(ApplyMaster(d, a))
  {}

  lemma ScreeningKeepsBacked(d: Db, a: ScreeningAction)
    requires Backed(d)
    ensures Backed(ApplyScreening(d, a))
  {
    var d' := ApplyScreening(d, a);
    if d' != d {
      var e := d'.audit[|d.audit|];
      assert d'.audit == d.audit + [e];
      LogExtends(d.audit, e);
    }
  }

  /** What an in-flight `ScheduleInterview` has seen. */
  ghost predicate GatesPassed(w: World) {
    forall r :: r in w.inflight ==>
      At(w.db, w.inflight[r].pair).submitted && (w.inflight[r].feedbackSeen ==> At(w.db, w.inflight[r].pair).feedback)
  }

  lemma InterviewRecorded(d: Db, id: int, p: Pair, status: InterviewStatus)
    requires Backed(d) && Depth(d.audit, p) >= 3
    ensures Backed(d.(interviews := d.interviews[id := Interview(p, status)], audit := d.audit + [Interviewed(p, id, status)]))
  {
    var e := Interviewed(p, id, status);
    LogExtends(d.audit, e);
    hide Depth, Ordered;
  }

  lemma InterviewKeepsBacked(w: World, a: InterviewAction)
    requires Backed(w.db) && GatesPassed(w)
    ensures Backed(ApplyInterview(w, a).db)
  {
    var d, d' := w.db, ApplyInterview(w, a).db;
    hide Depth, Ordered, ScreeningsBacked;
    if d'.audit != d.audit {
      var e := d'.audit[|d.audit|];
      if a.DoInsertInterview? {
        assert TrackBacked(At(d, e.pair), Depth(d.audit, e.pair));
      }
      InterviewRecorded(d, e.interview, e.pair, e.interviewStatus);
    }
  }

  /** What one pipeline transaction writes, and what it found before writing. */
  lemma TrackWrites(d: Db, a: TrackAction)
    requires ApplyTrack(d, a) != d
    ensures var p, d' := a.pair, ApplyTrack(d, a);
            p in d'.tracks && |d'.audit| > 0 && d' == Write(d, p, d'.tracks[p], d'.audit[|d'.audit| - 1])
    ensures a.DoSubmit? ==> CompletedScreening(d, a.pair)
    ensures a.DoDecide? ==> CompletedInterview(d, a.pair)
  {}

  /** The decision table of the pipeline gates: with history as deep as the rows found require,
      the event written is in order and the rows written are backed. */
  lemma GatesMatchStages(d: Db, a: TrackAction, depth: nat, depth': nat)
    requires ApplyTrack(d, a) != d
    requires TrackBacked(At(d, a.pair), depth)
    requires a.DoSubmit? ==> depth >= 1
    requires a.DoDecide? ==> depth >= 4
    ensures var d' := ApplyTrack(d, a);
            |d'.audit| > 0 && a.pair in d'.tracks &&
            var e := d'.audit[|d'.audit| - 1];
            e.pair == a.pair && (Stage(e).Some? ==> depth >= Stage(e).value)
            && (depth' >= depth && (Stage(e).Some? ==> depth' > Stage(e).value) ==> TrackBacked(d'.tracks[a.pair], depth'))
  {}

  lemma TrackKeepsBacked(d: Db, a: TrackAction)
    requires Backed(d)
    ensures Backed(ApplyTrack(d, a))
  {
    var d', p := ApplyTrack(d, a), a.pair;
    if d' != d {
      TrackWrites(d, a);
      var e := d'.audit[|d'.audit| - 1];
      GatesMatchStages(d, a, Depth(d.audit, p), Depth(d'.audit, p));
      hide ApplyTrack, TrackBacked;
      LogExtends(d.audit, e);
      hide Depth, Ordered;
      BackedRowsStayBacked(d, d', p);
      OtherRowsStayBacked(d, d');
      hide TracksBacked, ScreeningsBacked, InterviewsBacked;
    }
  }

  lemma OtherRowsStayBacked(d: Db, d': Db)
    requires ScreeningsBacked(d) && InterviewsBacked(d) && d'.screenings == d.screenings && d'.interviews == d.interviews
    requires forall q :: Depth(d'.audit, q) >= Depth(d.audit, q)
    ensures ScreeningsBacked(d') && InterviewsBacked(d')
  {}

  lemma BackedRowsStayBacked(d: Db, d': Db, p: Pair)
    requires TracksBacked(d) && p in d'.tracks && d'.tracks == d.tracks[p := d'.tracks[p]]
    requires TrackBacked(d'.tracks[p], Depth(d'.audit, p))
    requires forall q :: Depth(d'.audit, q) >= Depth(d.audit, q)
    ensures TracksBacked(d')
  {}

  lemma StepKeepsBacked(w: World, a: Action)
    requires Backed(w.db) && GatesPassed(w)
    ensures Backed(Step(w, a).db)
  {
    hide Backed, GatesPassed, ApplyMaster, ApplyScreening, ApplyInterview, ApplyTrack;
    match a
    case OnMaster(m) => MasterKeepsBacked(w.db, m);
    case OnScreening(m) => ScreeningKeepsBacked(w.db, m);
    case OnInterview(m) => InterviewKeepsBacked(w, m);
    case OnTrack(m) => TrackKeepsBacked(w.db, m);
  }

  /** Submissions and feedback are never taken back, so a gate passed earlier stays passed. */
  lemma GatesStayOpen(d: Db, a: TrackAction, p: Pair)
    ensures At(d, p).submitted ==> At(ApplyTrack(d, a), p).submitted
    ensures At(d, p).feedback ==> At(ApplyTrack(d, a), p).feedback
  {}

  lemma StepKeepsGatesPassed(w: World, a: Action)
    requires GatesPassed(w)
    ensures GatesPassed(Step(w, a))
  {
    hide ApplyMaster, ApplyScreening, ApplyTrack, InsertInterview, UpdateInterview;
    match a
    case OnMaster(m) => MasterFrame(w.db, m);
    case OnScreening(m) => ScreeningFrame(w.db, m);
    case OnInterview(m) => InterviewFrame(w, m);
    case OnTrack(m) => forall r | r in w.inflight { GatesStayOpen(w.db, m, w.inflight[r].pair); }
  }

  lemma {:induction false} RunKeepsBacked(w: World, actions: seq<Action>)
    requires Backed(w.db) && GatesPassed(w)
    ensures Backed(Run(w, actions).db)
    decreases actions
  {
    hide Backed, GatesPassed, Step;
    if actions != [] {
      StepKeepsBacked(w, actions[0]);
      StepKeepsGatesPassed(w, actions[0]);
      RunKeepsBacked(Step(w, actions[0]), actions[1..]);
    }
  }

  lemma {:induction false} DepthMeansPositions(log: seq<Event>, p: Pair, k: nat) returns (at: seq<nat>)
    requires k <= Depth(log, p)
    ensures |at| == k && Increasing(at, |log|)
    ensures forall j :: 0 <= j < k ==> log[at[j]].pair == p && Stage(log[at[j]]) == Some(j)
  {
    if k == 0 {
      at := [];
    } else {
      var n := |log| - 1;
      if k <= Depth(log[..n], p) {
        at := DepthMeansPositions(log[..n], p, k);
      } else {
        var earlier := DepthMeansPositions(log[..n], p, k - 1);
        assert log[n].pair == p && Stage(log[n]) == Some(k - 1);
        hide Depth, Stage;
        at := earlier + [n];
        IncreasingGrows(earlier, n);
        assert forall j :: 0 <= j < k - 1 ==> at[j] == earlier[j] && log[at[j]] == log[..n][earlier[j]];
      }
    }
  }

  lemma IncreasingGrows(at: seq<nat>, n: nat)
    requires Increasing(at, n)
    ensures Increasing(at + [n], n + 1)
  {}

  ghost predicate Increasing(at: seq<nat>, bound: nat) {
    (forall i, j :: 0 <= i < j < |at| ==> at[i] < at[j]) && (forall j :: 0 <= j < |at| ==> at[j] < bound)
  }

  /** The seven steps that must come before billing, found in this order before position `i`. */
  ghost predicate PrecededByPipeline(log: seq<Event>, i: nat, p: Pair)
    requires i <= |log|
  {
    exists at: seq<nat> ::
      && |at| == 7 && Increasing(at, i)
      && log[at[0]].Screened? && log[at[0]].pair == p && log[at[0]].screeningStatus == Completed
      && log[at[1]] == Submitted(p)
      && log[at[2]] == FeedbackGiven(p)
      && log[at[3]].Interviewed? && log[at[3]].pair == p && log[at[3]].interviewStatus == Done
      && log[at[4]] == Decided(p, true)
      && log[at[5]] == OfferAnswered(p, true)
      && log[at[6]] == JoiningSet(p, true)
  }

  lemma PositionsInOrder(log: seq<Event>, i: nat, p: Pair)
    requires i <= |log| && Depth(log[..i], p) >= 7
    ensures PrecededByPipeline(log, i, p)
  {
    var at := DepthMeansPositions(log[..i], p, 7);
    assert forall j :: 0 <= j < 7 ==> log[..i][at[j]] == log[at[j]];
  }

  /** In every interleaving of all handlers, a billing event is preceded, for its pair and in this
      order, by a completed screening, a submission, feedback, a completed interview, a positive
      decision, an accepted offer and a joining with joined = true. */
  lemma BillingHasCausalHistory(actions: seq<Action>, i: nat, p: Pair)
    requires i < |Run(START, actions).db.audit| && Run(START, actions).db.audit[i] == Billed(p)
    ensures PrecededByPipeline(Run(START, actions).db.audit, i, p)
  {
    RunKeepsBacked(START, actions);
    hide Run, PrecededByPipeline, TracksBacked, ScreeningsBacked, InterviewsBacked;
    PositionsInOrder(Run(START, actions).db.audit, i, p);
  }

  // ---- Screening capacity ----

  function ActiveOf(screenings: map<int, Screening>, c: int): set<int> {
    set s | s in screenings && screenings[s].pair.candidate == c && screenings[s].status == Active
  }

  ghost predicate Conserved(d: Db) {
    && (forall s :: s in d.screenings ==> d.screenings[s].pair.candidate in d.candidates)
    && (forall c :: c in d.candidates ==> d.candidates[c].count == |ActiveOf(d.screenings, c)| <= d.candidates[c].limit)
  }

  lemma ActiveSetChange(screenings: map<int, Screening>, id: int, s: Screening, c: int)
    ensures ActiveOf(screenings[id := s], c) ==
            if s.pair.candidate == c && s.status == Active then ActiveOf(screenings, c) + {id}
            else ActiveOf(screenings, c) - {id}
  {}

  lemma CreateKeepsConserved(d: Db, p: Pair, u: int, id: int)
    requires Conserved(d)
    ensures Conserved(CreateScreening(d, p, u, id))
  {
    if CreateScreening(d, p, u, id) != d {
      forall c { ActiveSetChange(d.screenings, id, Screening(p, Active), c); }
      hide ActiveOf;
    }
  }

  lemma UpdateKeepsConserved(d: Db, id: int, c: int, s: ScreeningStatus)
    requires Conserved(d)
    ensures Conserved(UpdateScreening(d, id, c, s))
  {
    if UpdateScreening(d, id, c, s) != d {
      var was := d.screenings[id];
      forall k { ActiveSetChange(d.screenings, id, was.(status := s), k); }
      assert forall k :: id in ActiveOf(d.screenings, k) <==> was.status == Active && k == c;
      hide ActiveOf;
    }
  }

  lemma MasterKeepsConserved(d: Db, a: MasterAction)
    requires Conserved(d)
    ensures Conserved(ApplyMaster(d, a))
  {
    if a.AddCandidate? && a.candidate !in d.candidates {
      assert forall s :: s in d.screenings ==> d.screenings[s].pair.candidate != a.candidate;
      assert ActiveOf(d.screenings, a.candidate) == {};
    }
  }

  lemma StepKeepsConserved(w: World, a: Action)
    requires Conserved(w.db)
    ensures Conserved(Step(w, a).db)
  {
    match a
    case OnMaster(m) => { hide Conserved, ApplyMaster; MasterKeepsConserved(w.db, m); }
    case OnScreening(m) => {
      hide Conserved, CreateScreening, UpdateScreening;
      if m.DoCreateScreening? { CreateKeepsConserved(w.db, m.pair, m.user, m.id); }
      else { UpdateKeepsConserved(w.db, m.id, m.candidate, m.status); }
    }
    case OnInterview(m) => { hide ApplyInterview; InterviewFrame(w, m); }
    case OnTrack(m) => { TrackFrame(w.db, m); hide ApplyTrack; }
  }

  lemma {:induction false} RunKeepsConserved(w: World, actions: seq<Action>)
    requires Conserved(w.db)
    ensures Conserved(Run(w, actions).db)
    decreases actions
  {
    hide Conserved, Step;
    if actions != [] {
      StepKeepsConserved(w, actions[0]);
      RunKeepsConserved(Step(w, actions[0]), actions[1..]);
    }
  }

  /** `screening_count` is the number of the candidate's active screenings and stays within the
      limit, and the "inconsistent" answer of the update handler is unreachable. */
  lemma ScreeningCapacityConserved(actions: seq<Action>, c: int, id: int)
    ensures var d := Run(START, actions).db;
            && (c in d.candidates ==> 0 <= d.candidates[c].count == |ActiveOf(d.screenings, c)| <= d.candidates[c].limit)
            && !CountInconsistent(d, id, c)
  {
    RunKeepsConserved(START, actions);
    hide Run;
    var d := Run(START, actions).db;
    if id in d.screenings && d.screenings[id].pair.candidate == c && d.screenings[id].status == Active {
      assert id in ActiveOf(d.screenings, c);
    }
  }

  lemma StepKeepsInactive(w: World, a: Action, id: int)
    requires id in w.db.screenings && w.db.screenings[id].status != Active
    ensures var after := Step(w, a).db.screenings;
            id in after && after[id].status != Active && after[id].pair == w.db.screenings[id].pair
  {
    match a
    case OnMaster(m) => { hide ApplyMaster; MasterFrame(w.db, m); }
    case OnScreening(m) =>
    case OnInterview(m) => { hide ApplyInterview; InterviewFrame(w, m); }
    case OnTrack(m) => { TrackFrame(w.db, m); hide ApplyTrack; }
  }

  /** A screening leaves `active` at most once: it never becomes active again, whatever follows. */
  lemma {:induction false} ScreeningLeavesActiveOnce(w: World, actions: seq<Action>, id: int)
    requires id in w.db.screenings && w.db.screenings[id].status != Active
    ensures id in Run(w, actions).db.screenings && Run(w, actions).db.screenings[id].status != Active
    ensures Run(w, actions).db.screenings[id].pair == w.db.screenings[id].pair
    decreases actions
  {
    hide Step;
    if actions != [] {
      StepKeepsInactive(w, actions[0], id);
      ScreeningLeavesActiveOnce(Step(w, actions[0]), actions[1..], id);
    }
  }

  // ---- One active interview per pair ----

  ghost predicate OneActive(interviews: map<int, Interview>) {
    forall i :: i in interviews && ActiveStatus(interviews[i].status) ==> !ActiveElsewhere(interviews, interviews[i].pair, i)
  }

  lemma InterviewKeepsOneActive(w: World, a: InterviewAction)
    requires OneActive(w.db.interviews)
    ensures OneActive(ApplyInterview(w, a).db.interviews)
  {}

  lemma {:induction false} OneActiveInterviewPerPair(w: World, actions: seq<Action>)
    requires OneActive(w.db.interviews)
    ensures OneActive(Run(w, actions).db.interviews)
    decreases actions
  {
    if actions != [] {
      match actions[0] {
        case OnMaster(m) => MasterFrame(w.db, m);
        case OnScreening(m) => ScreeningFrame(w.db, m);
        case OnInterview(m) => InterviewKeepsOneActive(w, m);
        case OnTrack(m) => TrackFrame(w.db, m);
      }
      hide OneActive, ApplyMaster, ApplyScreening, ApplyInterview, ApplyTrack;
      OneActiveInterviewPerPair(Step(w, actions[0]), actions[1..]);
    }
  }

  // ---- References between the tables ----

  /** The foreign keys, and the CHECK that a joined row has a date. */
  ghost predicate Linked(d: Db) {
    && (forall r :: r in d.requirements ==> d.requirements[r] in d.clients)
    && (forall s :: s in d.screenings ==> Known(d, d.screenings[s].pair))
    && (forall i :: i in d.interviews ==> Known(d, d.interviews[i].pair))
    && (forall p :: p in d.tracks ==> Known(d, p))
    && (forall p :: p in d.tracks && d.tracks[p].joining.Some? && d.tracks[p].joining.value.joined
          ==> d.tracks[p].joining.value.date.Some?)
  }

  lemma MasterKeepsLinked(d: Db, a: MasterAction)
    requires Linked(d)
    ensures Linked(ApplyMaster(d, a))
  {}

  lemma ScreeningKeepsLinked(d: Db, a: ScreeningAction)
    requires Linked(d)
    ensures Linked(ApplyScreening(d, a))
  {}

  lemma InterviewKeepsLinked(w: World, a: InterviewAction)
    requires Linked(w.db)
    ensures Linked(ApplyInterview(w, a).db)
  {}

  lemma TrackKeepsLinked(d: Db, a: TrackAction)
    requires Linked(d)
    ensures Linked(ApplyTrack(d, a))
  {}

  lemma {:induction false} RunKeepsLinked(w: World, actions: seq<Action>)
    requires Linked(w.db)
    ensures Linked(Run(w, actions).db)
    decreases actions
  {
    hide Linked, ApplyMaster, ApplyScreening, ApplyInterview, ApplyTrack;
    if actions != [] {
      match actions[0] {
        case OnMaster(m) => MasterKeepsLinked(w.db, m);
        case OnScreening(m) => ScreeningKeepsLinked(w.db, m);
        case OnInterview(m) => InterviewKeepsLinked(w, m);
        case OnTrack(m) => TrackKeepsLinked(w.db, m);
      }
      RunKeepsLinked(Step(w, actions[0]), actions[1..]);
    }
  }

  // ---- The billing worklist ----

  /** `billedOn` is the date of the billing row, where there is one. */
  datatype Item = Item(pair: Pair, client: int, date: int, billed: bool, billedOn: Option<int>)

  function JoinedPairs(d: Db): set<Pair> {
    set p | p in d.tracks && d.tracks[p].joining.Some? && d.tracks[p].joining.value.joined
  }

  function BilledPairs(d: Db): set<Pair> {
    set p | p in d.tracks && d.tracks[p].billing.Some?
  }

  /** What the joins of the worklist query need for the row of one joined pair. */
  predicate Listable(d: Db, p: Pair) {
    && Known(d, p) && d.requirements[p.requirement] in d.clients
    && p in d.tracks && d.tracks[p].joining.Some? && d.tracks[p].joining.value.date.Some?
  }

  predicate ListedRight(d: Db, item: Item) {
    && Listable(d, item.pair)
    && item.client == d.requirements[item.pair.requirement]
    && Some(item.date) == d.tracks[item.pair].joining.value.date
    && (item.billed <==> d.tracks[item.pair].billing.Some?)
    && item.billedOn == (if d.tracks[item.pair].billing.Some? then Some(d.tracks[item.pair].billing.value.date) else None)
  }

  function PairsOf(items: seq<Item>): set<Pair> {
    set i | 0 <= i < |items| :: items[i].pair
  }

  ghost predicate Distinct(items: seq<Item>) {
    forall i, j :: 0 <= i < j < |items| ==> items[i].pair != items[j].pair
  }

  ghost predicate AllRight(d: Db, items: seq<Item>) {
    forall i :: 0 <= i < |items| ==> ListedRight(d, items[i])
  }

  /** The listing holds every joined pair exactly once, with its own date and client, and marks it
      billed exactly when a billing row exists. */
  ghost predicate ExactListing(d: Db, items: seq<Item>) {
    Distinct(items) && AllRight(d, items) && PairsOf(items) == JoinedPairs(d)
  }

  lemma ItemAppended(d: Db, items: seq<Item>, item: Item)
    requires Distinct(items) && AllRight(d, items) && ListedRight(d, item) && item.pair !in PairsOf(items)
    ensures Distinct(items + [item]) && AllRight(d, items + [item]) && PairsOf(items + [item]) == PairsOf(items) + {item.pair}
  {
    var more := items + [item];
    forall i | 0 <= i < |items| ensures items[i].pair in PairsOf(more) { assert more[i] == items[i]; }
    assert more[|items|] == item;
    forall i, j | 0 <= i < j < |more| ensures more[i].pair != more[j].pair { assert items[i].pair in PairsOf(items); }
  }

  function Count(items: seq<Item>, billed: bool): nat {
    if items == [] then 0 else Count(items[..|items| - 1], billed) + if items[|items| - 1].billed == billed then 1 else 0
  }

  function Marked(items: seq<Item>, billed: bool): set<Pair> {
    set i | 0 <= i < |items| && items[i].billed == billed :: items[i].pair
  }

  lemma MarkedStep(items: seq<Item>, billed: bool)
    requires |items| > 0
    ensures var last := items[|items| - 1];
            Marked(items, billed) == Marked(items[..|items| - 1], billed) + if last.billed == billed then {last.pair} else {}
  {}

  lemma {:induction false} CountIsCardinality(items: seq<Item>, billed: bool)
    requires Distinct(items)
    ensures Count(items, billed) == |Marked(items, billed)|
  {
    if items != [] {
      var n := |items| - 1;
      CountIsCardinality(items[..n], billed);
      MarkedStep(items, billed);
      assert items[n].pair !in Marked(items[..n], billed);
      hide Marked;
    }
  }

  /** Billed plus pending items are all joined pairs. */
  lemma WorklistCounts(d: Db, items: seq<Item>)
    requires ExactListing(d, items)
    ensures Count(items, true) == |JoinedPairs(d) * BilledPairs(d)|
    ensures Count(items, false) == |JoinedPairs(d) - BilledPairs(d)|
    ensures Count(items, true) + Count(items, false) == |JoinedPairs(d)| == |items|
  {
    CountIsCardinality(items, true);
    CountIsCardinality(items, false);
    CountsSplit(items);
    MarkedPartition(d, items);
    hide Marked, JoinedPairs, BilledPairs, ExactListing;
  }

  lemma MarkedPartition(d: Db, items: seq<Item>)
    requires ExactListing(d, items)
    ensures Marked(items, true) == JoinedPairs(d) * BilledPairs(d)
    ensures Marked(items, false) == JoinedPairs(d) - BilledPairs(d)
    ensures |Marked(items, true)| + |Marked(items, false)| == |JoinedPairs(d)|
  {}

  lemma {:induction false} CountsSplit(items: seq<Item>)
    ensures Count(items, true) + Count(items, false) == |items|
  {
    if items != [] { CountsSplit(items[..|items| - 1]); }
  }

  /** In every reachable state no joined row is dropped by the joins or lacks its date. */
  lemma WorklistIsTotal(actions: seq<Action>, p: Pair)
    requires p in JoinedPairs(Run(START, actions).db)
    ensures Listable(Run(START, actions).db, p)
  {
    RunKeepsLinked(START, actions);
  }

  lemma {:induction false} RunThen(w: World, actions: seq<Action>, a: Action)
    ensures Run(w, actions + [a]) == Step(Run(w, actions), a)
    decreases actions
  {
    if actions == [] {
      assert Run(Step(w, a), []) == Step(w, a);
    } else {
      assert (actions + [a])[1..] == actions[1..] + [a];
      RunThen(Step(w, actions[0]), actions[1..], a);
    }
  }

  lemma Then(before: seq<Action>, a: Action) returns (actions: seq<Action>, d: Db)
    requires Run(START, before).inflight == map[] && !a.OnInterview?
    ensures d == Run(START, actions).db == Step(Run(START, before), a).db && Run(START, actions).inflight == map[]
  {
    actions := before + [a];
    d := Run(START, actions).db;
    RunThen(START, before, a);
  }

  lemma ThenInterview(before: seq<Action>, p: Pair) returns (actions: seq<Action>, d: Db)
    requires Run(START, before).inflight == map[] && Run(START, before).db.interviews == map[]
    requires At(Run(START, before).db, p).submitted && At(Run(START, before).db, p).feedback && Known(Run(START, before).db, p)
    ensures d == Run(START, actions).db && Run(START, actions).inflight == map[]
    ensures d == InsertInterview(Run(START, before).db, p, 1, Done) && d.interviews == map[1 := Interview(p, Done)]
  {
    var see, again, insert := OnInterview(SeeSubmission(1, p)), OnInterview(SeeFeedback(1)), OnInterview(DoInsertInterview(1, 1, Done));
    RunThen(START, before, see);
    RunThen(START, before + [see], again);
    RunThen(START, before + [see] + [again], insert);
    actions := before + [see] + [again] + [insert];
    d := Run(START, actions).db;
  }

  lemma ReachSubmission(p: Pair) returns (actions: seq<Action>, d: Db)
    ensures d == Run(START, actions).db && Run(START, actions).inflight == map[]
    ensures d.users == {1} && d.clients == {1} && Known(d, p) && d.interviews == map[]
    ensures d.tracks == map[p := NO_ROWS.(submitted := true)]
  {
    hide Run;
    assert Run(START, []) == START by { NoActions(); }
    actions, d := Then([], OnMaster(HireUser(1)));
    actions, d := Then(actions, OnMaster(AddClient(1)));
    actions, d := Then(actions, OnMaster(PutRequirement(p.requirement, 1)));
    actions, d := Then(actions, OnMaster(AddCandidate(p.candidate)));
    actions, d := Then(actions, OnScreening(DoCreateScreening(p, 1, 1)));
    actions, d := Then(actions, OnScreening(DoUpdateScreening(1, p.candidate, Completed)));
    assert d.screenings[1] == Screening(p, Completed);
    actions, d := Then(actions, OnTrack(DoSubmit(p, 1, Some(1))));
  }

  lemma NoActions()
    ensures Run(START, []) == START
  {}

  lemma ReachAcceptedOffer(p: Pair) returns (actions: seq<Action>, d: Db)
    ensures d == Run(START, actions).db && Run(START, actions).inflight == map[]
    ensures Known(d, p) && 1 in d.clients && At(d, p).offer == Some(true) && At(d, p).joining.None? && At(d, p).billing.None?
  {
    hide Run;
    actions, d := ReachSubmission(p);
    actions, d := Then(actions, OnTrack(DoFeedback(p, 1, Shortlist, NoReason)));
    actions, d := ThenInterview(actions, p);
    assert d.interviews[1] == Interview(p, Done);
    actions, d := Then(actions, OnTrack(DoDecide(p, true)));
    actions, d := Then(actions, OnTrack(DoOffer(p)));
    actions, d := Then(actions, OnTrack(DoAnswer(p, true)));
  }

  function AcceptedPairs(d: Db): set<Pair> {
    set p | p in d.tracks && d.tracks[p].offer == Some(true)
  }

  /** Billed, and no longer what it was billed for. */
  predicate Outlived(d: Db, p: Pair) { p in BilledPairs(d) && p !in JoinedPairs(d) && p !in AcceptedPairs(d) }

  lemma ReachBilling(p: Pair) returns (actions: seq<Action>, d: Db)
    ensures d == Run(START, actions).db && Run(START, actions).inflight == map[]
    ensures p in BilledPairs(d) && p in JoinedPairs(d) && At(d, p).offer == Some(true)
  {
    hide Run;
    actions, d := ReachAcceptedOffer(p);
    actions, d := Then(actions, OnTrack(DoJoin(p, Joining(Some(7), true))));
    actions, d := Then(actions, OnTrack(DoBill(p, 1)));
  }

  lemma TakenBack(d: Db, p: Pair)
    requires p in BilledPairs(d) && At(d, p).joining.Some? && At(d, p).offer.Some?
    ensures Outlived(ApplyTrack(ApplyTrack(d, DoRejoin(p, Joining(None, false))), DoAnswer(p, false)), p)
  {}

  /** "Billed implies joined today", or accepted today, is not an invariant: a joining and an offer may be
      taken back after billing. */
  lemma BillingOutlivesJoining()
    ensures exists actions, p :: Outlived(Run(START, actions).db, p)
  {
    hide Run;
    var p := Pair(1, 1);
    var actions, d := ReachBilling(p);
    TakenBack(d, p);
    hide ApplyTrack, Outlived;
    actions, d := Then(actions, OnTrack(DoRejoin(p, Joining(None, false))));
    actions, d := Then(actions, OnTrack(DoAnswer(p, false)));
  }

  // ---- Exactly when billing outlives what it was billed for ----

  predicate BilledAreJoined(d: Db) { BilledPairs(d) <= JoinedPairs(d) }

  predicate BilledAreAccepted(d: Db) { BilledPairs(d) <= AcceptedPairs(d) }

  /** An update of a billed pair's joining that takes it back. */
  predicate Unjoins(d: Db, a: Action) {
    a.OnTrack? && a.track.DoRejoin? && !a.track.joining.joined && a.track.pair in BilledPairs(d)
  }

  /** What `Bill` finds when it writes. */
  predicate Billable(d: Db, p: Pair, client: int) {
    Known(d, p) && client in d.clients && p in JoinedPairs(d) && d.tracks[p].joining.value.date.Some? && p !in BilledPairs(d)
  }

  /** An answer that takes a billed pair's offer back, or a billing whose offer was taken back before. */
  predicate Unaccepts(d: Db, a: Action) {
    a.OnTrack? &&
    ((a.track.DoAnswer? && !a.track.accepted && a.track.pair in BilledPairs(d))
     || (a.track.DoBill? && Billable(d, a.track.pair, a.track.client) && a.track.pair !in AcceptedPairs(d)))
  }

  lemma TrackKeepsJoined(d: Db, a: TrackAction)
    ensures var e := ApplyTrack(d, a);
            JoinedPairs(e) == if (a.DoJoin? || a.DoRejoin?) && e != d then
                                (if a.joining.joined then JoinedPairs(d) + {a.pair} else JoinedPairs(d) - {a.pair})
                              else JoinedPairs(d)
  {}

  lemma TrackKeepsBilled(d: Db, a: TrackAction)
    ensures BilledPairs(ApplyTrack(d, a))
            == if a.DoBill? && Billable(d, a.pair, a.client) then BilledPairs(d) + {a.pair} else BilledPairs(d)
  {}

  lemma TrackKeepsAccepted(d: Db, a: TrackAction)
    ensures var e := ApplyTrack(d, a);
            AcceptedPairs(e) == if a.DoAnswer? && e != d then
                                  (if a.accepted then AcceptedPairs(d) + {a.pair} else AcceptedPairs(d) - {a.pair})
                                else AcceptedPairs(d)
  {}

  lemma OtherGroupsKeepPairs(w: World, a: Action)
    requires !a.OnTrack?
    ensures var d, e := w.db, Step(w, a).db;
            BilledPairs(e) == BilledPairs(d) && JoinedPairs(e) == JoinedPairs(d) && AcceptedPairs(e) == AcceptedPairs(d)
  {
    hide ApplyMaster, ApplyScreening, ApplyInterview;
    match a
    case OnMaster(m) => MasterFrame(w.db, m);
    case OnScreening(m) => ScreeningFrame(w.db, m);
    case OnInterview(m) => InterviewFrame(w, m);
  }

  lemma RejoinTakesEffect(d: Db, p: Pair, j: Joining)
    requires p in JoinedPairs(d) && !j.joined
    ensures ApplyTrack(d, DoRejoin(p, j)) != d
  {
    var e := ApplyTrack(d, DoRejoin(p, j));
    assert |e.audit| == |d.audit| + 1;
  }

  lemma AnswerTakesEffect(d: Db, p: Pair)
    requires p in AcceptedPairs(d)
    ensures ApplyTrack(d, DoAnswer(p, false)) != d
  {
    var e := ApplyTrack(d, DoAnswer(p, false));
    assert |e.audit| == |d.audit| + 1;
  }

  /** A joining that is new cannot belong to a billed pair while every billed pair is joined. */
  lemma JoinNeedsNoJoining(d: Db, p: Pair, j: Joining)
    requires ApplyTrack(d, DoJoin(p, j)) != d
    ensures p !in JoinedPairs(d)
  {}

  /** While every billed pair is joined, a step changes that exactly when it takes back the joining of a
      billed pair. */
  lemma StepUnjoinsIff(w: World, a: Action)
    requires BilledAreJoined(w.db)
    ensures !BilledAreJoined(Step(w, a).db) <==> Unjoins(w.db, a)
  {
    if a.OnTrack? {
      TrackKeepsJoined(w.db, a.track);
      TrackKeepsBilled(w.db, a.track);
      if a.track.DoJoin? && ApplyTrack(w.db, a.track) != w.db { JoinNeedsNoJoining(w.db, a.track.pair, a.track.joining); }
      if Unjoins(w.db, a) { RejoinTakesEffect(w.db, a.track.pair, a.track.joining); }
    } else {
      OtherGroupsKeepPairs(w, a);
    }
    hide ApplyTrack, ApplyMaster, ApplyScreening, ApplyInterview, JoinedPairs, BilledPairs;
  }

  /** While every billed pair's offer is accepted, a step changes that exactly when it takes a billed pair's
      offer back, or bills a joined pair whose offer was taken back before. */
  lemma StepUnacceptsIff(w: World, a: Action)
    requires BilledAreAccepted(w.db)
    ensures !BilledAreAccepted(Step(w, a).db) <==> Unaccepts(w.db, a)
  {
    if a.OnTrack? {
      TrackKeepsAccepted(w.db, a.track);
      TrackKeepsBilled(w.db, a.track);
      if a.track.DoAnswer? && !a.track.accepted && a.track.pair in AcceptedPairs(w.db) { AnswerTakesEffect(w.db, a.track.pair); }
    } else {
      OtherGroupsKeepPairs(w, a);
    }
    hide ApplyTrack, ApplyMaster, ApplyScreening, ApplyInterview, AcceptedPairs, BilledPairs, JoinedPairs;
  }

  /** Over a whole run: every billed pair is joined throughout exactly when no step of the run takes the
      joining of a billed pair back. */
  lemma {:induction false} BillingStaysJoinedIff(w: World, actions: seq<Action>)
    requires BilledAreJoined(w.db)
    ensures (forall k :: 0 <= k <= |actions| ==> BilledAreJoined(Run(w, actions[..k]).db))
            <==> (forall k :: 0 <= k < |actions| ==> !Unjoins(Run(w, actions[..k]).db, actions[k]))
    decreases |actions|
  {
    hide BilledAreJoined, Unjoins, Step;
    if actions == [] {
      assert actions[..0] == [];
    } else {
      var n := |actions| - 1;
      var init := actions[..n];
      BillingStaysJoinedIff(w, init);
      assert forall k :: 0 <= k <= n ==> init[..k] == actions[..k];
      assert actions[..n + 1] == init + [actions[n]];
      RunThen(w, init, actions[n]);
      if BilledAreJoined(Run(w, init).db) { StepUnjoinsIff(Run(w, init), actions[n]); }
      assert init == actions[..n] && init[..n] == init;
      hide Run;
    }
  }

  /** The same for offers. */
  lemma {:induction false} BillingStaysAcceptedIff(w: World, actions: seq<Action>)
    requires BilledAreAccepted(w.db)
    ensures (forall k :: 0 <= k <= |actions| ==> BilledAreAccepted(Run(w, actions[..k]).db))
            <==> (forall k :: 0 <= k < |actions| ==> !Unaccepts(Run(w, actions[..k]).db, actions[k]))
    decreases |actions|
  {
    hide BilledAreAccepted, Unaccepts, Step;
    if actions == [] {
      assert actions[..0] == [];
    } else {
      var n := |actions| - 1;
      var init := actions[..n];
      BillingStaysAcceptedIff(w, init);
      assert forall k :: 0 <= k <= n ==> init[..k] == actions[..k];
      assert actions[..n + 1] == init + [actions[n]];
      RunThen(w, init, actions[n]);
      if BilledAreAccepted(Run(w, init).db) { StepUnacceptsIff(Run(w, init), actions[n]); }
      assert init == actions[..n] && init[..n] == init;
      hide Run;
    }
  }
}
