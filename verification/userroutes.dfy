/** The user-facing issue handlers of app/routes/user.py: reporting an issue
    with automatic expert assignment, deleting it, and escalating it to a
    different expert. */
module UserRoutes {
  import opened Common
  import opened Records
  import opened Scoring
  import opened Selection

  /** The `IssueCreate` request body. */
  datatype IssueForm = IssueForm(title: string, description: string, category: string, urgency: int)

  /** The caller's region, or "north" when the token carries none (user.py:32).
      The result is never empty, so the 400 at user.py:33-34 cannot be raised. */
  function HomeRegion(caller: Caller): (r: string)
    ensures r != ""
    ensures Present(caller.region) ==> r == caller.region.value
  {
    if Present(caller.region) then caller.region.value else "north"
  }

  /** The document `report_issue` inserts (user.py:57-71). */
  function NewIssue(form: IssueForm, submitter: string, region: string, now: Time): Issue {
    Issue(form.title, form.description, form.category, form.urgency, Pending, now, None, submitter, [],
          region, false, false, {}, {}, None, None, None, None)
  }

  /** The reply of `report_issue`. */
  datatype ReportReply =
    | NoExperts(issueId: string)
    | Retrying(issueId: string)
    | AssignedTo(issueId: string, expertId: string)

  /** The region an issue is filed under: the caller's home region when an
      available verified expert lives there, else the balancer's choice made
      before the issue is stored (user.py:37-53). */
  ghost function FiledRegion(st: Store, caller: Caller): string {
    if NoneAdmitted(st.experts, AvailableVerifiedIn(HomeRegion(caller))) then BestRegion(st)
    else HomeRegion(caller)
  }

  /** The store once `report_issue` has inserted the new issue, filed
      under `FiledRegion`, and its "Issue created." system message
      (user.py:57-84). */
  function FileIssue(st: Store, caller: Caller, form: IssueForm, newId: string, now: Time): (r: Store)
    requires newId !in st.issues.docs
    ensures r.issues.docs.Keys == st.issues.docs.Keys + {newId}
    ensures r.issues.docs[newId] == NewIssue(form, caller.id, FiledRegion(st, caller), now)
    ensures forall id :: id in st.issues.docs ==> r.issues.docs[id] == st.issues.docs[id]
    ensures r.messages == st.messages + [Message(newId, None, "system", "Issue created.", now)]
    ensures r == st.(issues := r.issues, messages := r.messages)
    ensures WfStore(st) ==> WfStore(r)
  {
    var home := HomeRegion(caller);
    var region := if Staffed(st.experts, AvailableVerifiedIn(home)) then home else BestRegion(st);
    st.(issues := Insert(st.issues, newId, NewIssue(form, caller.id, region, now)),
        messages := st.messages + [Message(newId, None, "system", "Issue created.", now)])
  }

  /** `report_issue` (user.py:27-113), with `issue_id` = `newId` and the
      clock reading `now`. */
  function ReportIssue(st: Store, caller: Caller, form: IssueForm, newId: string, now: Time, cos: Cosine)
    : (r: Step<ReportReply>)
    requires newId !in st.issues.docs
    ensures caller.role != "user" ==> r == Refuse(st, 403)
    ensures caller.role == "user" ==>
      && r.outcome.Ok? && r.outcome.value.issueId == newId
      && newId in r.store.issues.docs
      && r.store.issues.docs.Keys == st.issues.docs.Keys + {newId}
      && (forall id :: id in st.issues.docs ==> r.store.issues.docs[id] == st.issues.docs[id])
      && r.store.messages == st.messages + [Message(newId, None, "system", "Issue created.", now)]
      && r.store == st.(issues := r.store.issues, experts := r.store.experts, messages := r.store.messages)
      && |r.events| >= 1 && r.events[0] == Event(Some(caller.id), IssueCreated, About(newId))
      && var i := r.store.issues.docs[newId];
         && i.region == FiledRegion(st, caller)
         && i.title == form.title && i.description == form.description
         && i.category == form.category && i.urgency == form.urgency
         && i.submittedBy == caller.id && i.createdAt == now
         && i.reassignmentLog == [] && !i.doneByUser && !i.doneByExpert
         && i.rejectedBy == {} && i.skippedBy == {}
         && (r.outcome.value.NoExperts? ==>
               && NoneAdmitted(st.experts, AvailableVerifiedIn(i.region))
               && i.status == Pending && i.assignedExpert == None
               && r.store.experts == st.experts && r.retries == [] && |r.events| == 1)
         && (r.outcome.value.Retrying? ==>
               && !NoneAdmitted(st.experts, AvailableVerifiedIn(i.region))
               && i.status == Pending && i.assignedExpert == None
               && r.store.experts == st.experts && r.retries == [newId]
               && Pick(st.experts, AvailableVerifiedIn(i.region), NewIssue(form, caller.id, i.region, now), cos).None?
               && r.events == [r.events[0], Event(Some(caller.id), NoExpertNow, About(newId))])
         && (r.outcome.value.AssignedTo? ==>
               var x := r.outcome.value.expertId;
               && x != "" && x in st.experts.docs
               && Admits(AvailableVerifiedIn(i.region), x, st.experts.docs[x])
               && Some(x) == MatchBest(NewIssue(form, caller.id, i.region, now),
                                       Pool(st.experts, AvailableVerifiedIn(i.region)), DefaultWeights, cos, true)
               && i.status == Assigned && i.assignedExpert == Some(x)
               && LoadsMoved(st.experts, r.store.experts, map[x := 1])
               && r.retries == []
               && r.events == [r.events[0], Event(Some(x), IssueAssigned, TextOnly)])
    ensures WfStore(st) ==> WfStore(r.store)
  {
    if caller.role != "user" then Refuse(st, 403)
    else
      var st1 := FileIssue(st, caller, form, newId, now);
      var issue := st1.issues.docs[newId];
      var created := Event(Some(caller.id), IssueCreated, About(newId));
      if !Staffed(st.experts, AvailableVerifiedIn(issue.region)) then Step(st1, [created], [], Ok(NoExperts(newId)))
      else
        var found := Pick(st.experts, AvailableVerifiedIn(issue.region), issue, cos);
        if found.None? then
          Step(st1, [created, Event(Some(caller.id), NoExpertNow, About(newId))], [newId], Ok(Retrying(newId)))
        else
          Step(AssignIn(st1, newId, found.value), [created, Event(found, IssueAssigned, TextOnly)], [],
               Ok(AssignedTo(newId, found.value)))
  }

  /** With the default weights in force, a bounded cosine and non-negative
      trust scores, a report never waits for a retry: whenever the pool has
      an expert, one is chosen (user.py:86-94 only matter for an expert whose
      id is the empty string). */
  lemma ReportAssignsWhenPoolNonEmpty(st: Store, caller: Caller, form: IssueForm, newId: string, now: Time,
                                      cos: Cosine)
    requires newId !in st.issues.docs
    requires CosineBounded(cos)
    requires forall id :: id in st.experts.docs ==> st.experts.docs[id].trustScore >= 0.0 && id != ""
    ensures var r := ReportIssue(st, caller, form, newId, now, cos);
      caller.role == "user" ==> r.outcome.value.NoExperts? || r.outcome.value.AssignedTo?
  {
    if caller.role == "user" {
      var issue := FileIssue(st, caller, form, newId, now).issues.docs[newId];
      if Staffed(st.experts, AvailableVerifiedIn(issue.region)) {
        PickFromStaffedRegion(st.experts, issue, cos);
      }
    }
  }

  /** `delete_issue` (user.py:141-155): only the submitter may delete; there
      is no role or status check and expert counters are left as they are. */
  function DeleteIssue(st: Store, caller: Caller, issueId: string): (r: Step<()>)
    ensures (issueId in st.issues.docs && st.issues.docs[issueId].submittedBy == caller.id) <==> r.outcome.Ok?
    ensures r.outcome.Fail? ==> r == Refuse(st, 404)
    ensures r.outcome.Ok? ==>
      && r.store.issues.docs.Keys == st.issues.docs.Keys - {issueId}
      && (forall id :: id in r.store.issues.docs ==> r.store.issues.docs[id] == st.issues.docs[id])
      && issueId !in r.store.issues.order
      && r.store == st.(issues := r.store.issues)
      && r.events == [Event(Some(caller.id), IssueDeleted, TextOnly)]
      && r.retries == []
    ensures WfStore(st) ==> WfStore(r.store)
  {
    if issueId !in st.issues.docs || st.issues.docs[issueId].submittedBy != caller.id then Refuse(st, 404)
    else Step(st.(issues := Remove(st.issues, issueId)), [Event(Some(caller.id), IssueDeleted, TextOnly)], [], Ok(()))
  }

  /** The reply of `escalate_issue`. */
  datatype EscalateReply = NothingToEscalate | Reassigned(newExpert: string) | NoFallback

  /** `escalate_issue` (user.py:157-226): the caller must be a user and
      the submitter; an issue without an assigned expert is left alone. */
  function EscalateIssue(st: Store, caller: Caller, issueId: string, now: Time, cos: Cosine)
    : (r: Step<EscalateReply>)
    ensures caller.role != "user" ==> r == Refuse(st, 403)
    ensures caller.role == "user" && (issueId !in st.issues.docs || st.issues.docs[issueId].submittedBy != caller.id)
      ==> r == Refuse(st, 404)
    ensures caller.role == "user" && issueId in st.issues.docs && st.issues.docs[issueId].submittedBy == caller.id ==>
      && r.outcome.Ok?
      && (!Present(st.issues.docs[issueId].assignedExpert) <==> r.outcome.value == NothingToEscalate)
      && (!Present(st.issues.docs[issueId].assignedExpert) ==> r.store == st && r.events == [] && r.retries == [])
      && (Present(st.issues.docs[issueId].assignedExpert) ==> r == Escalated(st, caller.id, issueId, now, cos))
  {
    if caller.role != "user" then Refuse(st, 403)
    else if issueId !in st.issues.docs || st.issues.docs[issueId].submittedBy != caller.id then Refuse(st, 404)
    else if !Present(st.issues.docs[issueId].assignedExpert) then Step(st, [], [], Ok(NothingToEscalate))
    else Escalated(st, caller.id, issueId, now, cos)
  }

  /** The escalation proper (user.py:170-226): the current expert is skipped
      and loses one active issue; the issue goes to the best available
      verified expert that has neither rejected nor been skipped on it, and
      the reassignment is logged. */
  function Escalated(st: Store, userId: string, issueId: string, now: Time, cos: Cosine): (r: Step<EscalateReply>)
    requires issueId in st.issues.docs && Present(st.issues.docs[issueId].assignedExpert)
    ensures var before := st.issues.docs[issueId];
      var prev := before.assignedExpert;
      var updated := before.(assignedExpert := None, status := Pending, skippedBy := before.skippedBy + {prev.value});
      && r.outcome.Ok? && !r.outcome.value.NothingToEscalate? && r.retries == []
      && (r.outcome.value.NoFallback?
          <==> Pick(Unload(st.experts, prev.value), AvailableVerifiedExcept(updated.rejectedBy + updated.skippedBy),
                    updated, cos).None?)
      && OnlyIssue(st.issues, r.store.issues, issueId)
      && HistoryGrows(st.issues, r.store.issues)
      && r.store == st.(issues := r.store.issues, experts := r.store.experts)
      && var after := r.store.issues.docs[issueId];
      && after.skippedBy == before.skippedBy + {prev.value}
      && after.rejectedBy == before.rejectedBy
      && (r.outcome.value.NoFallback? ==>
            && after == before.(assignedExpert := None, status := Pending, skippedBy := after.skippedBy)
            && LoadsMoved(st.experts, r.store.experts, map[prev.value := -1])
            && r.events == [Event(Some(userId), NoExpertNow, About(issueId))])
      && (r.outcome.value.Reassigned? ==>
            var x := r.outcome.value.newExpert;
            && x != "" && x != prev.value
            && x !in after.rejectedBy && x !in after.skippedBy
            && x in st.experts.docs && st.experts.docs[x].isAvailable && st.experts.docs[x].isVerified
            && Some(x) == MatchBest(updated, Pool(Unload(st.experts, prev.value),
                                                  AvailableVerifiedExcept(updated.rejectedBy + updated.skippedBy)),
                                    DefaultWeights, cos, true)
            && after == before.(assignedExpert := Some(x), status := Assigned, skippedBy := after.skippedBy,
                                reassignmentLog := before.reassignmentLog + [LogEntry(x, now)])
            && LoadsMoved(st.experts, r.store.experts, map[prev.value := -1, x := 1])
            && r.events == [Event(Some(x), IssueAssigned, About(issueId)),
                            Event(Some(userId), IssueAssigned, About(issueId)),
                            Event(prev, IssueUnassigned, About(issueId))])
    ensures WfStore(st) ==> WfStore(r.store)
  {
    var before := st.issues.docs[issueId];
    var prev := before.assignedExpert;
    var updated := before.(assignedExpert := None, status := Pending, skippedBy := before.skippedBy + {prev.value});
    var experts1 := Unload(st.experts, prev.value);
    var found := Pick(experts1, AvailableVerifiedExcept(updated.rejectedBy + updated.skippedBy), updated, cos);
    if found.Some? then
      var x := found.value;
      AdmitsIgnoresLoad(AvailableVerifiedExcept(updated.rejectedBy + updated.skippedBy), x, st.experts.docs[x],
                        experts1.docs[x].activeIssues);
      AdmitsExcept(updated.rejectedBy + updated.skippedBy, x, st.experts.docs[x]);
      EscalateTo(st, userId, issueId, x, now)
    else
      Step(Revise(st, issueId, updated, experts1),
           [Event(Some(userId), NoExpertNow, About(issueId))], [], Ok(NoFallback))
  }

  /** The hand-over branch of an escalation: `x` takes the issue, its
      current expert is skipped, and one active issue moves between them
      (user.py:185-211). */
  function EscalateTo(st: Store, userId: string, issueId: string, x: string, now: Time): (r: Step<EscalateReply>)
    requires issueId in st.issues.docs && Present(st.issues.docs[issueId].assignedExpert)
    requires x != st.issues.docs[issueId].assignedExpert.value
    ensures var before := st.issues.docs[issueId];
      var prev := before.assignedExpert;
      && r.outcome == Ok(Reassigned(x)) && r.retries == []
      && OnlyIssue(st.issues, r.store.issues, issueId)
      && HistoryGrows(st.issues, r.store.issues)
      && r.store == st.(issues := r.store.issues, experts := r.store.experts)
      && r.store.issues.docs[issueId]
         == before.(assignedExpert := Some(x), status := Assigned, skippedBy := before.skippedBy + {prev.value},
                    reassignmentLog := before.reassignmentLog + [LogEntry(x, now)])
      && LoadsMoved(st.experts, r.store.experts, map[prev.value := -1, x := 1])
      && r.events == [Event(Some(x), IssueAssigned, About(issueId)),
                      Event(Some(userId), IssueAssigned, About(issueId)),
                      Event(prev, IssueUnassigned, About(issueId))]
    ensures WfStore(st) ==> WfStore(r.store)
  {
    var before := st.issues.docs[issueId];
    var prev := before.assignedExpert;
    var final := before.(assignedExpert := Some(x), status := Assigned, skippedBy := before.skippedBy + {prev.value},
                         reassignmentLog := before.reassignmentLog + [LogEntry(x, now)]);
    Step(Revise(st, issueId, final, Shift(st.experts, prev.value, x)),
         [Event(Some(x), IssueAssigned, About(issueId)),
          Event(Some(userId), IssueAssigned, About(issueId)),
          Event(prev, IssueUnassigned, About(issueId))],
         [], Ok(Reassigned(x)))
  }
}
