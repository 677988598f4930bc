/** The documents of the service's MongoDB database, the caller identity a
    handler receives from the token, the WebSocket notifications it sends,
    and the result of one handler call. */
module Records {
  import opened Common

  /** `get_current_user()`: id (`sub` claim), `role` claim and region of
      the caller. Tokens are minted with "user", "expert" or "admin"; the
      handlers compare the string, so the role is kept as one. */
  datatype Caller = Caller(id: string, role: string, region: Option<string>)

  /** The values the handlers write into an issue's `status` field. */
  datatype Status = Pending | Assigned | InProgress | AwaitingUserConfirmation | Closed

  /** One element of `reassignment_log`. */
  datatype LogEntry = LogEntry(expertId: string, at: Time)

  /** A document of the `issues` collection (keyed by `issue_id`). Sets hold
      the `$addToSet` arrays; an absent array is the empty set. */
  datatype Issue = Issue(
    title: string,
    description: string,
    category: string,
    urgency: int,
    status: Status,
    createdAt: Time,
    assignedExpert: Option<string>,
    submittedBy: string,
    reassignmentLog: seq<LogEntry>,
    region: string,
    doneByUser: bool,
    doneByExpert: bool,
    rejectedBy: set<string>,
    skippedBy: set<string>,
    resolutionNotes: Option<string>,
    resolvedAt: Option<Time>,
    closedAt: Option<Time>,
    reassignmentStatus: Option<string>)

  /** `expert_tags`: normally a list, but the scorer also accepts one
      comma-separated string. */
  datatype Tags = TagList(items: seq<string>) | TagText(text: string)

  /** What an expert submitted at registration. */
  datatype Background = Background(
    proofResume: string, qualifications: string, experienceYears: int, portfolioUrl: string)

  /** A document of the `experts` collection (keyed by `expert_id`).
      `isAvailable` is the boolean that registration and
      `update_availability` write; `availability` is a separate string field
      that no handler writes but the scorer, the reject pool and the region
      balancer read. */
  datatype Expert = Expert(
    name: string,
    email: string,
    passwordHash: string,
    region: string,
    isVerified: bool,
    isAvailable: bool,
    availability: Option<string>,
    activeIssues: int,
    trustScore: real,
    trustVotes: nat,
    maxConcurrentIssues: int,
    tags: Tags,
    skills: seq<string>,
    categories: seq<string>,
    background: Background,
    quizScore: int,
    verificationNotes: string)

  /** A document of the `users` collection (keyed by `user_id`).
      Registration does not write `trust_votes`, hence the option. */
  datatype User = User(
    name: string,
    email: string,
    passwordHash: string,
    trustScore: real,
    trustVotes: Option<nat>,
    region: string)

  /** A document of the `messages` collection. */
  datatype Message = Message(
    issueId: string, senderId: Option<string>, senderRole: string, content: string, at: Time)

  /** A document of the `ratings` collection. */
  datatype Rating = Rating(
    issueId: string, ratedBy: string, ratedByRole: string, recipientId: string,
    recipientRole: string, stars: int, comment: string, at: Time)

  /** A document of the `feedback` collection (users rating experts). */
  datatype ExpertFeedback = ExpertFeedback(
    issueId: string, expertId: string, rating: int, comment: string, at: Time)

  /** A document of the `user_feedback` collection (experts rating users). */
  datatype UserFeedback = UserFeedback(
    issueId: string, userId: string, expertId: string, rating: int, comment: string, at: Time)

  /** The whole database. */
  datatype Store = Store(
    issues: Coll<Issue>,
    experts: Coll<Expert>,
    users: Coll<User>,
    messages: seq<Message>,
    ratings: seq<Rating>,
    feedback: seq<ExpertFeedback>,
    userFeedback: seq<UserFeedback>)

  ghost predicate WfStore(st: Store) {
    WfColl(st.issues) && WfColl(st.experts) && WfColl(st.users)
  }

  /** WebSocket event names sent through `ws_manager.send_event`. */
  datatype EventName =
    | IssueCreated | IssueAssigned | IssueUnassigned | IssueStarted
    | ResolutionSubmitted | IssueClosed | NoExpertNow | IssueDeleted
    | ExpertRated | UserRated | NewMessage

  /** The payload of an event, reduced to the data the model tracks. */
  datatype Payload =
    | About(issueId: string)
    | TextOnly
    | Resolution(issueId: string, notes: string)
    | RatingPrompt(issueId: string, rateWhom: Option<string>)

  /** One `send_event(recipient, name, payload)`. The recipient is optional
      because handlers pass `assigned_expert`, which may be `None`; such an
      event is dropped by the transport. */
  datatype Event = Event(to: Option<string>, name: EventName, payload: Payload)

  /** The result of one handler call: the database afterwards, the events
      sent, the issue ids handed to a background `retry_assignment`, and the
      reply (or the HTTP error raised). */
  datatype Step<+T> = Step(store: Store, events: seq<Event>, retries: seq<string>, outcome: Outcome<T>)

  /** An error raised before anything was written. */
  function Refuse<T>(st: Store, code: nat): (r: Step<T>)
    ensures r.store == st && r.events == [] && r.retries == [] && r.outcome == Fail(code)
  {
    Step(st, [], [], Fail(code))
  }

  /** `$inc: {active_issues: delta}` on the expert `id`; no effect when no
      document has that id. There is no lower bound. */
  function AddLoad(experts: Coll<Expert>, id: string, delta: int): (r: Coll<Expert>)
    ensures r.order == experts.order && r.docs.Keys == experts.docs.Keys
    ensures forall x :: x in experts.docs && x != id ==> r.docs[x] == experts.docs[x]
    ensures id in experts.docs ==>
      r.docs[id] == experts.docs[id].(activeIssues := experts.docs[id].activeIssues + delta)
    ensures WfColl(experts) ==> WfColl(r)
  {
    if id in experts.docs then
      Put(experts, id, experts.docs[id].(activeIssues := experts.docs[id].activeIssues + delta))
    else experts
  }

  /** The experts collection moved from `a` to `b` by exactly the load
      deltas in `delta` (absent ids: 0) and nothing else changed. */
  ghost predicate LoadsMoved(a: Coll<Expert>, b: Coll<Expert>, delta: map<string, int>) {
    && b.order == a.order
    && b.docs.Keys == a.docs.Keys
    && forall x :: x in a.docs ==>
         b.docs[x] == a.docs[x].(activeIssues := a.docs[x].activeIssues + (if x in delta then delta[x] else 0))
  }

  /** One `$inc` moves the loads by exactly its delta. */
  lemma AddLoadMoves(experts: Coll<Expert>, id: string, delta: int)
    ensures LoadsMoved(experts, AddLoad(experts, id, delta), map[id := delta])
  {
    var b := AddLoad(experts, id, delta);
    forall x | x in experts.docs
      ensures b.docs[x] == experts.docs[x].(activeIssues := experts.docs[x].activeIssues
                                              + (if x in map[id := delta] then map[id := delta][x] else 0))
    {
      if x != id {
        assert x !in map[id := delta];
      }
    }
  }

  /** Two `$inc`s on different experts compose. */
  lemma {:induction false} LoadsCompose(a: Coll<Expert>, b: Coll<Expert>, c: Coll<Expert>, p: string, q: string,
                                        dp: int, dq: int)
    requires p != q
    requires LoadsMoved(a, b, map[p := dp])
    requires LoadsMoved(b, c, map[q := dq])
    ensures LoadsMoved(a, c, map[p := dp, q := dq])
  {
    var m := map[p := dp, q := dq];
    forall x | x in a.docs
      ensures c.docs[x] == a.docs[x].(activeIssues := a.docs[x].activeIssues + (if x in m then m[x] else 0))
    {
      assert x in b.docs;
      if x == p {
        assert x !in map[q := dq] && m[x] == dp;
        assert b.docs[x] == a.docs[x].(activeIssues := a.docs[x].activeIssues + dp);
        assert c.docs[x] == b.docs[x].(activeIssues := b.docs[x].activeIssues + 0);
      } else if x == q {
        assert x !in map[p := dp] && m[x] == dq;
        assert b.docs[x] == a.docs[x].(activeIssues := a.docs[x].activeIssues + 0);
        assert c.docs[x] == b.docs[x].(activeIssues := b.docs[x].activeIssues + dq);
      } else {
        assert x !in map[p := dp] && x !in map[q := dq] && x !in m;
        assert b.docs[x] == a.docs[x].(activeIssues := a.docs[x].activeIssues + 0);
        assert c.docs[x] == b.docs[x].(activeIssues := b.docs[x].activeIssues + 0);
      }
    }
  }

  /** The experts collection once `id` has one active issue fewer. */
  function Unload(experts: Coll<Expert>, id: string): (r: Coll<Expert>)
    ensures LoadsMoved(experts, r, map[id := -1])
    ensures WfColl(experts) ==> WfColl(r)
  {
    AddLoadMoves(experts, id, -1);
    AddLoad(experts, id, -1)
  }

  /** The experts collection once one active issue moves from `p` to `q`. */
  function Shift(experts: Coll<Expert>, p: string, q: string): (r: Coll<Expert>)
    requires p != q
    ensures LoadsMoved(experts, r, map[p := -1, q := 1])
    ensures WfColl(experts) ==> WfColl(r)
  {
    var b := Unload(experts, p);
    AddLoadMoves(b, q, 1);
    LoadsCompose(experts, b, AddLoad(b, q, 1), p, q, -1, 1);
    AddLoad(b, q, 1)
  }

  /** The store once the pending issue `id` is assigned to `x` and `x`'s
      load is raised by one. */
  function AssignIn(st: Store, id: string, x: string): (r: Store)
    requires id in st.issues.docs && x in st.experts.docs
    ensures r.issues == Put(st.issues, id, st.issues.docs[id].(assignedExpert := Some(x), status := Assigned))
    ensures r.issues.docs.Keys == st.issues.docs.Keys
    ensures r.issues.docs[id] == st.issues.docs[id].(assignedExpert := Some(x), status := Assigned)
    ensures forall y :: y in st.issues.docs && y != id ==> r.issues.docs[y] == st.issues.docs[y]
    ensures LoadsMoved(st.experts, r.experts, map[x := 1])
    ensures r == st.(issues := r.issues, experts := r.experts)
    ensures WfStore(st) ==> WfStore(r)
  {
    AddLoadMoves(st.experts, x, 1);
    st.(issues := Put(st.issues, id, st.issues.docs[id].(assignedExpert := Some(x), status := Assigned)),
        experts := AddLoad(st.experts, x, 1))
  }

  /** Per-issue history only grows: for every issue present before and after,
      the reassignment log is extended at its end and the rejected/skipped
      sets only gain members. */
  ghost predicate HistoryGrows(a: Coll<Issue>, b: Coll<Issue>) {
    forall id :: id in a.docs && id in b.docs ==>
      && a.docs[id].reassignmentLog <= b.docs[id].reassignmentLog
      && a.docs[id].rejectedBy <= b.docs[id].rejectedBy
      && a.docs[id].skippedBy <= b.docs[id].skippedBy
  }

  /** Replacing one issue by a version whose history extends the stored
      one keeps the history growing. */
  lemma PutGrows(issues: Coll<Issue>, id: string, doc: Issue)
    requires id in issues.docs
    requires issues.docs[id].reassignmentLog <= doc.reassignmentLog
    requires issues.docs[id].rejectedBy <= doc.rejectedBy && issues.docs[id].skippedBy <= doc.skippedBy
    ensures HistoryGrows(issues, Put(issues, id, doc))
  {
  }

  /** Only `id` may differ between `a` and `b`, and it is in both. */
  ghost predicate OnlyIssue(a: Coll<Issue>, b: Coll<Issue>, id: string) {
    && id in a.docs && b.order == a.order && b.docs.Keys == a.docs.Keys
    && forall x :: x in a.docs && x != id ==> b.docs[x] == a.docs[x]
  }

  /** The store once issue `id` is replaced by `doc`, whose history extends
      the stored one, and the experts collection by `experts`. */
  function Revise(st: Store, id: string, doc: Issue, experts: Coll<Expert>): (r: Store)
    requires id in st.issues.docs
    requires st.issues.docs[id].reassignmentLog <= doc.reassignmentLog
    requires st.issues.docs[id].rejectedBy <= doc.rejectedBy && st.issues.docs[id].skippedBy <= doc.skippedBy
    ensures OnlyIssue(st.issues, r.issues, id) && r.issues.docs[id] == doc
    ensures HistoryGrows(st.issues, r.issues)
    ensures r == st.(issues := r.issues, experts := experts)
    ensures WfColl(st.issues) ==> WfColl(r.issues)
  {
    PutGrows(st.issues, id, doc);
    st.(issues := Put(st.issues, id, doc), experts := experts)
  }
}
