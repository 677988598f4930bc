/** The per-issue chat of app/routes/chat.py: sending and listing messages,
    and its own (unserved, see app/main.py:24-31) `mark_done` route with
    ownership checks. */
module ChatRoutes {
  import opened Common
  import opened Records

  /** The party check shared by the three routes (chat.py:26-29, 69-72): a
      "user" must have submitted the issue and an "expert" must be assigned
      to it; any other role passes. */
  predicate MayTalk(issue: Issue, caller: Caller) {
    && (caller.role == "user" ==> issue.submittedBy == caller.id)
    && (caller.role == "expert" ==> issue.assignedExpert == Some(caller.id))
  }

  /** Who is told about a new message (chat.py:46): the assigned expert when
      a user writes, the submitter otherwise. */
  function Recipient(issue: Issue, caller: Caller): (r: Option<string>)
    ensures caller.role == "user" ==> r == issue.assignedExpert
    ensures caller.role != "user" ==> r == Some(issue.submittedBy)
  {
    if caller.role == "user" then issue.assignedExpert else Some(issue.submittedBy)
  }

  /** `send_message` (chat.py:17-52); `content` is the body's "message"
      value, absent or a string. */
  function SendMessage(st: Store, caller: Caller, issueId: string, content: Option<string>, now: Time)
    : (r: Step<()>)
    ensures issueId !in st.issues.docs ==> r == Refuse(st, 404)
    ensures issueId in st.issues.docs && !MayTalk(st.issues.docs[issueId], caller) ==> r == Refuse(st, 403)
    ensures issueId in st.issues.docs && MayTalk(st.issues.docs[issueId], caller) && !Present(content)
      ==> r == Refuse(st, 400)
    ensures r.outcome.Ok? <==>
      issueId in st.issues.docs && MayTalk(st.issues.docs[issueId], caller) && Present(content)
    ensures r.outcome.Ok? ==>
      && r.store == st.(messages := st.messages + [Message(issueId, Some(caller.id), caller.role, content.value, now)])
      && r.events == [Event(Recipient(st.issues.docs[issueId], caller), NewMessage, About(issueId))]
      && r.retries == []
  {
    if issueId !in st.issues.docs then Refuse(st, 404)
    else
      var issue := st.issues.docs[issueId];
      if !MayTalk(issue, caller) then Refuse(st, 403)
      else if !Present(content) then Refuse(st, 400)
      else
        Step(st.(messages := st.messages + [Message(issueId, Some(caller.id), caller.role, content.value, now)]),
             [Event(Recipient(issue, caller), NewMessage, About(issueId))], [], Ok(()))
  }

  /** The messages of one issue, in the order they were stored. */
  function Thread(msgs: seq<Message>, issueId: string): (r: seq<Message>)
    ensures |r| <= |msgs|
    ensures forall m :: m in r <==> m in msgs && m.issueId == issueId
  {
    if msgs == [] then []
    else (if msgs[0].issueId == issueId then [msgs[0]] else []) + Thread(msgs[1..], issueId)
  }

  lemma {:induction false} ThreadAppend(msgs: seq<Message>, m: Message, issueId: string)
    ensures Thread(msgs + [m], issueId) == Thread(msgs, issueId) + (if m.issueId == issueId then [m] else [])
    decreases |msgs|
  {
    if msgs != [] {
      assert (msgs + [m])[1..] == msgs[1..] + [m];
      ThreadAppend(msgs[1..], m, issueId);
    } else {
      assert Thread([m][1..], issueId) == [];
    }
  }

  /** `get_messages` (chat.py:58-79): an unknown issue gives an empty list to
      anyone; otherwise the party check, then the issue's messages. The
      timestamp sort is the storage order, the clock never running
      backwards. */
  function GetMessages(st: Store, caller: Caller, issueId: string): (r: Outcome<seq<Message>>)
    ensures issueId !in st.issues.docs ==> r == Ok([])
    ensures issueId in st.issues.docs ==> (r.Ok? <==> MayTalk(st.issues.docs[issueId], caller))
    ensures r.Fail? ==> r.code == 403
    ensures r.Ok? && issueId in st.issues.docs ==>
      forall m :: m in r.value <==> m in st.messages && m.issueId == issueId
  {
    if issueId !in st.issues.docs then Ok([])
    else if !MayTalk(st.issues.docs[issueId], caller) then Fail(403)
    else Ok(Thread(st.messages, issueId))
  }

  /** A message that was sent is the last one listed afterwards, after
      everything listed before. */
  lemma SendThenGet(st: Store, caller: Caller, issueId: string, content: Option<string>, now: Time)
    requires SendMessage(st, caller, issueId, content, now).outcome.Ok?
    ensures var sent := SendMessage(st, caller, issueId, content, now);
      GetMessages(sent.store, caller, issueId)
        == Ok(GetMessages(st, caller, issueId).value + [Message(issueId, Some(caller.id), caller.role, content.value, now)])
  {
    ThreadAppend(st.messages, Message(issueId, Some(caller.id), caller.role, content.value, now), issueId);
  }

  /** `mark_issue_done` (chat.py:84-121): a user must be the submitter and an
      expert the assigned expert, other roles are refused; the caller's own
      flag is set, and the issue closes, with a feedback request, exactly
      when both flags are set. */
  function MarkIssueDone(st: Store, caller: Caller, issueId: string): (r: Step<bool>)
    ensures issueId !in st.issues.docs ==> r == Refuse(st, 404)
    ensures issueId in st.issues.docs
            && !((caller.role == "user" || caller.role == "expert") && MayTalk(st.issues.docs[issueId], caller))
      ==> r == Refuse(st, 403)
    ensures r.outcome.Ok? <==>
      issueId in st.issues.docs && (caller.role == "user" || caller.role == "expert")
      && MayTalk(st.issues.docs[issueId], caller)
    ensures r.outcome.Ok? ==>
      && r.retries == []
      && OnlyIssue(st.issues, r.store.issues, issueId)
      && r.store == st.(issues := r.store.issues)
      && var before := st.issues.docs[issueId];
         var after := r.store.issues.docs[issueId];
      && after.doneByUser == (before.doneByUser || caller.role == "user")
      && after.doneByExpert == (before.doneByExpert || caller.role == "expert")
      && (r.outcome.value <==> after.doneByUser && after.doneByExpert)
      && after.status == (if r.outcome.value then Closed else before.status)
      && after == before.(doneByUser := after.doneByUser, doneByExpert := after.doneByExpert, status := after.status)
      && r.events == (if r.outcome.value then [Event(Some(before.submittedBy), IssueClosed, About(issueId)),
                                              Event(before.assignedExpert, IssueClosed, About(issueId))]
                      else [])
    ensures WfStore(st) ==> WfStore(r.store)
  {
    if issueId !in st.issues.docs then Refuse(st, 404)
    else
      var before := st.issues.docs[issueId];
      if caller.role != "user" && caller.role != "expert" then Refuse(st, 403)
      else if !MayTalk(before, caller) then Refuse(st, 403)
      else
        var marked := if caller.role == "user" then before.(doneByUser := true) else before.(doneByExpert := true);
        if marked.doneByUser && marked.doneByExpert then
          Step(st.(issues := Put(st.issues, issueId, marked.(status := Closed))),
               [Event(Some(before.submittedBy), IssueClosed, About(issueId)),
                Event(before.assignedExpert, IssueClosed, About(issueId))], [], Ok(true))
        else Step(st.(issues := Put(st.issues, issueId, marked)), [], [], Ok(false))
  }
}
