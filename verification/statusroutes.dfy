/** The ownership-checked `mark_done` of app/routes/status.py, which records
    the closing time and asks both parties to rate each other. app/main.py
    mounts expert.py's route of the same path first, so this variant is not
    the one served. */
module StatusRoutes {
  import opened Common
  import opened Records

  /** The caller's side of the issue, if any (status.py:21-26): the
      assigned expert, or the submitting user. */
  predicate OwnsExpertSide(issue: Issue, caller: Caller) {
    caller.role == "expert" && issue.assignedExpert == Some(caller.id)
  }

  predicate OwnsUserSide(issue: Issue, caller: Caller) {
    caller.role == "user" && issue.submittedBy == caller.id
  }

  /** `mark_done` (status.py:11-51): the reply is true ("closed") exactly
      when both flags are set afterwards; closing stamps `closed_at` and
      sends each party a rating prompt naming the other. */
  function MarkDone(st: Store, caller: Caller, issueId: string, now: Time): (r: Step<bool>)
    ensures issueId !in st.issues.docs ==> r == Refuse(st, 404)
    ensures issueId in st.issues.docs ==>
      var before := st.issues.docs[issueId];
      && (r.outcome.Ok? <==> OwnsExpertSide(before, caller) || OwnsUserSide(before, caller))
      && (r.outcome.Fail? ==> r == Refuse(st, 403))
    ensures r.outcome.Ok? ==>
      && r.retries == []
      && OnlyIssue(st.issues, r.store.issues, issueId)
      && r.store == st.(issues := r.store.issues)
      && var before := st.issues.docs[issueId];
         var after := r.store.issues.docs[issueId];
      && after.doneByExpert == (before.doneByExpert || OwnsExpertSide(before, caller))
      && after.doneByUser == (before.doneByUser || OwnsUserSide(before, caller))
      && (r.outcome.value <==> after.doneByUser && after.doneByExpert)
      && (r.outcome.value ==> after.status == Closed && after.closedAt == Some(now))
      && (!r.outcome.value ==> after.status == before.status && after.closedAt == before.closedAt)
      && after == before.(doneByUser := after.doneByUser, doneByExpert := after.doneByExpert,
                          status := after.status, closedAt := after.closedAt)
      && r.events == (if r.outcome.value then
                        [Event(Some(before.submittedBy), IssueClosed, RatingPrompt(issueId, before.assignedExpert)),
                         Event(before.assignedExpert, IssueClosed, RatingPrompt(issueId, Some(before.submittedBy)))]
                      else [])
    ensures WfStore(st) ==> WfStore(r.store)
  {
    if issueId !in st.issues.docs then Refuse(st, 404)
    else
      var before := st.issues.docs[issueId];
      if !OwnsExpertSide(before, caller) && !OwnsUserSide(before, caller) then Refuse(st, 403)
      else
        var marked := if OwnsExpertSide(before, caller) then before.(doneByExpert := true)
                      else before.(doneByUser := true);
        if marked.doneByUser && marked.doneByExpert then
          Step(st.(issues := Put(st.issues, issueId, marked.(status := Closed, closedAt := Some(now)))),
               [Event(Some(before.submittedBy), IssueClosed, RatingPrompt(issueId, before.assignedExpert)),
                Event(before.assignedExpert, IssueClosed, RatingPrompt(issueId, Some(before.submittedBy)))],
               [], Ok(true))
        else Step(st.(issues := Put(st.issues, issueId, marked)), [], [], Ok(false))
  }

  /** The two rating prompts of a close point each party at the other. */
  lemma {:induction false} ClosePromptsCross(st: Store, caller: Caller, issueId: string, now: Time)
    requires MarkDone(st, caller, issueId, now).outcome == Ok(true)
    ensures var r := MarkDone(st, caller, issueId, now);
      var issue := r.store.issues.docs[issueId];
      && |r.events| == 2
      && r.events[0].to == Some(issue.submittedBy) && r.events[0].payload.rateWhom == issue.assignedExpert
      && r.events[1].to == issue.assignedExpert && r.events[1].payload.rateWhom == Some(issue.submittedBy)
  {
    var before := st.issues.docs[issueId];
    var after := MarkDone(st, caller, issueId, now).store.issues.docs[issueId];
    assert after.submittedBy == before.submittedBy && after.assignedExpert == before.assignedExpert;
  }
}
