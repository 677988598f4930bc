/** The expert-side handlers of app/routes/expert.py: accepting and
    resolving an assignment, rejecting it, marking it done, rating the other
    party, verification and the availability switch. Router order
    (app/main.py:24-31) puts this file's `mark_done` and `verify_expert`
    ahead of their namesakes in status.py, chat.py and admin.py, so these
    are the ones the service serves. */
module ExpertRoutes {
  import opened Common
  import opened Records
  import opened Scoring
  import opened Selection
  import opened Stats

  /** `find_one({"issue_id": id, "assigned_expert": expertId})` finds a document. */
  predicate AssignedTo(st: Store, issueId: string, expertId: string) {
    issueId in st.issues.docs && st.issues.docs[issueId].assignedExpert == Some(expertId)
  }

  // ---------------------------------------------------------------------
  // accept_assignment (expert.py:48-63)
  // ---------------------------------------------------------------------

  /** Only the assigned expert may accept; the status becomes "in_progress"
      whatever it was, and nothing else about the issue changes. */
  function AcceptAssignment(st: Store, caller: Caller, issueId: string): (r: Step<()>)
    ensures caller.role != "expert" ==> r == Refuse(st, 403)
    ensures caller.role == "expert" && !AssignedTo(st, issueId, caller.id) ==> r == Refuse(st, 404)
    ensures caller.role == "expert" && AssignedTo(st, issueId, caller.id) ==>
      && r.outcome == Ok(()) && r.retries == []
      && OnlyIssue(st.issues, r.store.issues, issueId)
      && r.store.issues.docs[issueId] == st.issues.docs[issueId].(status := InProgress)
      && r.store == st.(issues := r.store.issues)
      && r.events == [Event(Some(st.issues.docs[issueId].submittedBy), IssueStarted, About(issueId))]
    ensures WfStore(st) ==> WfStore(r.store)
  {
    if caller.role != "expert" then Refuse(st, 403)
    else if !AssignedTo(st, issueId, caller.id) then Refuse(st, 404)
    else
      var issue := st.issues.docs[issueId];
      Step(st.(issues := Put(st.issues, issueId, issue.(status := InProgress))),
           [Event(Some(issue.submittedBy), IssueStarted, About(issueId))], [], Ok(()))
  }

  // ---------------------------------------------------------------------
  // submit_resolution (expert.py:72-107)
  // ---------------------------------------------------------------------

  /** The assigned expert submits notes: the issue awaits the user's
      confirmation with both done flags cleared, and the expert's active
      count drops by exactly one, with no lower bound. */
  function SubmitResolution(st: Store, caller: Caller, issueId: string, notes: string, now: Time): (r: Step<()>)
    ensures caller.role != "expert" ==> r == Refuse(st, 403)
    ensures caller.role == "expert" && !AssignedTo(st, issueId, caller.id) ==> r == Refuse(st, 404)
    ensures caller.role == "expert" && AssignedTo(st, issueId, caller.id) ==>
      && r.outcome == Ok(()) && r.retries == []
      && OnlyIssue(st.issues, r.store.issues, issueId)
      && var before := st.issues.docs[issueId];
         var after := r.store.issues.docs[issueId];
      && after.status == AwaitingUserConfirmation
      && !after.doneByUser && !after.doneByExpert
      && after.resolutionNotes == Some(notes) && after.resolvedAt == Some(now)
      && after.assignedExpert == before.assignedExpert
      && after.reassignmentLog == before.reassignmentLog
      && after == before.(status := after.status, resolutionNotes := after.resolutionNotes,
                          resolvedAt := after.resolvedAt, doneByUser := false, doneByExpert := false)
      && LoadsMoved(st.experts, r.store.experts, map[caller.id := -1])
      && r.store == st.(issues := r.store.issues, experts := r.store.experts)
      && r.events == [Event(Some(before.submittedBy), ResolutionSubmitted, Resolution(issueId, notes))]
    ensures WfStore(st) ==> WfStore(r.store)
  {
    if caller.role != "expert" then Refuse(st, 403)
    else if !AssignedTo(st, issueId, caller.id) then Refuse(st, 404)
    else
      var issue := st.issues.docs[issueId];
      var resolved := issue.(status := AwaitingUserConfirmation, resolutionNotes := Some(notes),
                             resolvedAt := Some(now), doneByUser := false, doneByExpert := false);
      AddLoadMoves(st.experts, caller.id, -1);
      Step(st.(issues := Put(st.issues, issueId, resolved), experts := AddLoad(st.experts, caller.id, -1)),
           [Event(Some(issue.submittedBy), ResolutionSubmitted, Resolution(issueId, notes))], [], Ok(()))
  }

  /** Nothing stops a second submission: the expert stays assigned, so the
      same call succeeds again and the active count falls by two in all. */
  lemma {:induction false} ResolutionRepeats(st: Store, caller: Caller, issueId: string, notes: string, now: Time)
    requires caller.role == "expert" && AssignedTo(st, issueId, caller.id)
    requires caller.id in st.experts.docs
    ensures var once := SubmitResolution(st, caller, issueId, notes, now);
      var twice := SubmitResolution(once.store, caller, issueId, notes, now);
      && twice.outcome == Ok(())
      && twice.store.experts.docs[caller.id].activeIssues == st.experts.docs[caller.id].activeIssues - 2
  {
    var once := SubmitResolution(st, caller, issueId, notes, now);
    assert AssignedTo(once.store, issueId, caller.id);
    assert once.store.experts.docs[caller.id].activeIssues == st.experts.docs[caller.id].activeIssues - 1;
  }

  // ---------------------------------------------------------------------
  // rate_expert / rate_user (expert.py:118-188)
  // ---------------------------------------------------------------------

  /** The trust update `(current * votes + rating / 5) / (votes + 1)`,
      without the two-decimal rounding. */
  function NewTrust(current: real, votes: nat, rating: int): real {
    (current * (votes as real) + (rating as real) / 5.0) / ((votes as real) + 1.0)
  }

  /** The update is a running mean: if the current score is the mean of
      `votes` values, the new score is the mean with the normalised rating
      appended. */
  lemma TrustIsRunningMean(xs: seq<real>, rating: int)
    requires xs != []
    ensures NewTrust(Mean(xs), |xs|, rating) == Mean(xs + [(rating as real) / 5.0])
  {
    var n := |xs| as real;
    var v := (rating as real) / 5.0;
    SumAppend(xs, v);
    assert Mean(xs) * n == Sum(xs);
  }

  /** `rate_expert`: the feedback document is stored for any user caller,
      even when the rated expert does not exist. */
  function RateExpert(st: Store, caller: Caller, issueId: string, expertId: string, rating: int,
                      comment: string, now: Time): (r: Step<()>)
    ensures caller.role != "user" ==> r == Refuse(st, 403)
    ensures caller.role == "user" ==>
      && r.store.feedback == st.feedback + [ExpertFeedback(issueId, expertId, rating, comment, now)]
      && r.retries == []
      && (expertId in st.experts.docs <==> r.outcome.Ok?)
      && (expertId !in st.experts.docs ==>
            r.outcome == Fail(404) && r.store == st.(feedback := r.store.feedback) && r.events == [])
      && (expertId in st.experts.docs ==>
            var e := st.experts.docs[expertId];
            && r.store.experts.order == st.experts.order
            && r.store.experts.docs.Keys == st.experts.docs.Keys
            && (forall x :: x in st.experts.docs && x != expertId ==> r.store.experts.docs[x] == st.experts.docs[x])
            && r.store.experts.docs[expertId]
               == e.(trustScore := NewTrust(e.trustScore, e.trustVotes, rating), trustVotes := e.trustVotes + 1)
            && r.store == st.(experts := r.store.experts, feedback := r.store.feedback)
            && r.events == [Event(Some(expertId), ExpertRated, About(issueId))])
    ensures WfStore(st) ==> WfStore(r.store)
  {
    if caller.role != "user" then Refuse(st, 403)
    else
      var st1 := st.(feedback := st.feedback + [ExpertFeedback(issueId, expertId, rating, comment, now)]);
      if expertId !in st.experts.docs then Step(st1, [], [], Fail(404))
      else
        var e := st.experts.docs[expertId];
        var rated := e.(trustScore := NewTrust(e.trustScore, e.trustVotes, rating), trustVotes := e.trustVotes + 1);
        Step(st1.(experts := Put(st.experts, expertId, rated)),
             [Event(Some(expertId), ExpertRated, About(issueId))], [], Ok(()))
  }

  /** An expert's trust score stays the mean of the registration prior and
      every normalised rating, with `trust_votes` counting them: registration
      starts at score 0.5 with one vote, which is the mean of `[0.5]`. */
  lemma RateExpertKeepsMean(st: Store, caller: Caller, issueId: string, expertId: string, rating: int,
                            comment: string, now: Time, xs: seq<real>)
    requires caller.role == "user" && expertId in st.experts.docs
    requires xs != []
    requires st.experts.docs[expertId].trustScore == Mean(xs) && st.experts.docs[expertId].trustVotes == |xs|
    ensures var e := RateExpert(st, caller, issueId, expertId, rating, comment, now).store.experts.docs[expertId];
      && e.trustScore == Mean(xs + [(rating as real) / 5.0])
      && e.trustVotes == |xs + [(rating as real) / 5.0]|
  {
    TrustIsRunningMean(xs, rating);
  }

  /** The `trust_votes` written by the `$inc`: a missing field becomes 1.
      With `intended` the count also starts from the default the update
      read, 1. */
  function UserVotesAfter(votes: Option<nat>, intended: bool): nat {
    if intended then votes.GetOr(1) + 1 else votes.GetOr(0) + 1
  }

  /** `rate_user` (`intended` false), and the same handler with the vote
      count written consistently (`intended` true). Registration writes no
      `trust_votes`, which the update reads as 1. */
  function RateUserWith(st: Store, caller: Caller, issueId: string, userId: string, rating: int,
                        comment: string, now: Time, intended: bool): (r: Step<()>)
    ensures caller.role != "expert" ==> r == Refuse(st, 403)
    ensures caller.role == "expert" ==>
      && r.store.userFeedback == st.userFeedback + [UserFeedback(issueId, userId, caller.id, rating, comment, now)]
      && r.retries == []
      && (userId in st.users.docs <==> r.outcome.Ok?)
      && (userId !in st.users.docs ==>
            r.outcome == Fail(404) && r.store == st.(userFeedback := r.store.userFeedback) && r.events == [])
      && (userId in st.users.docs ==>
            var u := st.users.docs[userId];
            && r.store.users.order == st.users.order
            && r.store.users.docs.Keys == st.users.docs.Keys
            && (forall x :: x in st.users.docs && x != userId ==> r.store.users.docs[x] == st.users.docs[x])
            && r.store.users.docs[userId]
               == u.(trustScore := NewTrust(u.trustScore, u.trustVotes.GetOr(1), rating),
                     trustVotes := Some(UserVotesAfter(u.trustVotes, intended)))
            && r.store == st.(users := r.store.users, userFeedback := r.store.userFeedback)
            && r.events == [Event(Some(userId), UserRated, About(issueId))])
    ensures WfStore(st) ==> WfStore(r.store)
  {
    if caller.role != "expert" then Refuse(st, 403)
    else
      var st1 := st.(userFeedback := st.userFeedback + [UserFeedback(issueId, userId, caller.id, rating, comment, now)]);
      if userId !in st.users.docs then Step(st1, [], [], Fail(404))
      else
        var u := st.users.docs[userId];
        var rated := u.(trustScore := NewTrust(u.trustScore, u.trustVotes.GetOr(1), rating),
                        trustVotes := Some(UserVotesAfter(u.trustVotes, intended)));
        Step(st1.(users := Put(st.users, userId, rated)),
             [Event(Some(userId), UserRated, About(issueId))], [], Ok(()))
  }

  /** `rate_user` as written (expert.py:157-188). */
  function RateUser(st: Store, caller: Caller, issueId: string, userId: string, rating: int,
                    comment: string, now: Time): (r: Step<()>)
    ensures caller.role != "expert" ==> r == Refuse(st, 403)
    ensures caller.role == "expert" && userId in st.users.docs ==>
      && r.outcome == Ok(()) && userId in r.store.users.docs
      && r.store.users.docs[userId].trustVotes == Some(st.users.docs[userId].trustVotes.GetOr(0) + 1)
  {
    RateUserWith(st, caller, issueId, userId, rating, comment, now, false)
  }

  /** A user's trust score and vote count agree with a running mean when
      `trust_votes` (read with default 1) counts the averaged values. */
  ghost predicate UserMeanHolds(u: User, xs: seq<real>) {
    xs != [] && u.trustScore == Mean(xs) && u.trustVotes.GetOr(1) == |xs|
  }

  /** As written, the running mean is lost from the second rating on: a
      freshly registered user (score 0.5, no `trust_votes`) rated 5 twice
      ends at 0.875, while the mean of the prior and both ratings is 2.5 / 3. */
  lemma RateUserLosesMean()
    ensures var u := User("u", "u@example.com", "h", 0.5, None, "north");
      var st := Store(Coll(map[], []), Coll(map[], []), Coll(map["u" := u], ["u"]), [], [], [], []);
      var c := Caller("x", "expert", None);
      var once := RateUser(st, c, "i", "u", 5, "", 0);
      var twice := RateUser(once.store, c, "i", "u", 5, "", 0);
      && UserMeanHolds(u, [0.5])
      && once.store.users.docs["u"].trustScore == Mean([0.5, 1.0])
      && once.store.users.docs["u"].trustVotes == Some(1)
      && twice.store.users.docs["u"].trustScore == 0.875
      && !UserMeanHolds(twice.store.users.docs["u"], [0.5, 1.0, 1.0])
  {
    var u := User("u", "u@example.com", "h", 0.5, None, "north");
    var st := Store(Coll(map[], []), Coll(map[], []), Coll(map["u" := u], ["u"]), [], [], [], []);
    var c := Caller("x", "expert", None);
    var once := RateUser(st, c, "i", "u", 5, "", 0);
    assert Sum([0.5]) == 0.5 by { assert [0.5][..0] == []; }
    assert Sum([0.5, 1.0]) == 1.5 by { assert [0.5, 1.0][..1] == [0.5]; }
    assert Sum([0.5, 1.0, 1.0]) == 2.5 by { assert [0.5, 1.0, 1.0][..2] == [0.5, 1.0]; }
    assert once.store.users.docs["u"].trustScore == 0.75;
  }

  /** With the vote count written as the update reads it, every rating
      keeps the user's score the mean of the prior and all ratings. */
  lemma RateUserIntendedKeepsMean(st: Store, caller: Caller, issueId: string, userId: string, rating: int,
                                  comment: string, now: Time, xs: seq<real>)
    requires caller.role == "expert" && userId in st.users.docs
    requires UserMeanHolds(st.users.docs[userId], xs)
    ensures UserMeanHolds(RateUserWith(st, caller, issueId, userId, rating, comment, now, true).store.users.docs[userId],
                          xs + [(rating as real) / 5.0])
  {
    TrustIsRunningMean(xs, rating);
  }

  // ---------------------------------------------------------------------
  // verify_expert (expert.py:200-222)
  // ---------------------------------------------------------------------

  datatype VerifyReply = AlreadyVerified | Verified

  /** Admin verification: refused for non-admins and unknown experts; an
      already verified expert is left alone; otherwise `is_verified` is set
      and the notes recorded, "Verified by admin" when none are given. */
  function VerifyExpert(st: Store, caller: Caller, expertId: string, notes: string): (r: Step<VerifyReply>)
    ensures caller.role != "admin" ==> r == Refuse(st, 403)
    ensures caller.role == "admin" && expertId !in st.experts.docs ==> r == Refuse(st, 404)
    ensures caller.role == "admin" && expertId in st.experts.docs ==>
      && r.outcome.Ok? && r.events == [] && r.retries == []
      && (r.outcome.value == AlreadyVerified <==> st.experts.docs[expertId].isVerified)
      && (r.outcome.value == AlreadyVerified ==> r.store == st)
      && (r.outcome.value == Verified ==>
            && r.store == st.(experts := r.store.experts)
            && r.store.experts.order == st.experts.order
            && r.store.experts.docs.Keys == st.experts.docs.Keys
            && (forall x :: x in st.experts.docs && x != expertId ==> r.store.experts.docs[x] == st.experts.docs[x])
            && r.store.experts.docs[expertId].isVerified
            && r.store.experts.docs[expertId].verificationNotes != ""
            && (notes != "" ==> r.store.experts.docs[expertId].verificationNotes == notes)
            && (notes == "" ==> r.store.experts.docs[expertId].verificationNotes == "Verified by admin")
            && r.store.experts.docs[expertId]
               == st.experts.docs[expertId].(isVerified := true,
                                            verificationNotes := r.store.experts.docs[expertId].verificationNotes))
    ensures WfStore(st) ==> WfStore(r.store)
  {
    if caller.role != "admin" then Refuse(st, 403)
    else if expertId !in st.experts.docs then Refuse(st, 404)
    else if st.experts.docs[expertId].isVerified then Step(st, [], [], Ok(AlreadyVerified))
    else
      var e := st.experts.docs[expertId];
      Step(st.(experts := Put(st.experts, expertId,
                              e.(isVerified := true, verificationNotes := if notes == "" then "Verified by admin" else notes))),
           [], [], Ok(Verified))
  }

  /** Verifying twice leaves the store as verifying once. */
  lemma VerifyExpertIdempotent(st: Store, caller: Caller, expertId: string, notes: string, notes2: string)
    ensures var once := VerifyExpert(st, caller, expertId, notes);
      VerifyExpert(once.store, caller, expertId, notes2).store == once.store
  {
  }

  // ---------------------------------------------------------------------
  // update_availability (expert.py:252-270)
  // ---------------------------------------------------------------------

  /** The availability switch writes only the boolean `is_available`; the
      string field the scorer reads is untouched. */
  function UpdateAvailability(st: Store, caller: Caller, value: string): (r: Step<()>)
    ensures caller.role != "expert" ==> r == Refuse(st, 403)
    ensures caller.role == "expert" && value != "available" && value != "busy" ==> r == Refuse(st, 400)
    ensures caller.role == "expert" && (value == "available" || value == "busy") && caller.id !in st.experts.docs
      ==> r == Refuse(st, 404)
    ensures r.outcome.Ok? <==>
      caller.role == "expert" && (value == "available" || value == "busy") && caller.id in st.experts.docs
    ensures r.outcome.Ok? ==>
      && r.events == [] && r.retries == []
      && r.store == st.(experts := r.store.experts)
      && r.store.experts.order == st.experts.order
      && r.store.experts.docs.Keys == st.experts.docs.Keys
      && (forall x :: x in st.experts.docs && x != caller.id ==> r.store.experts.docs[x] == st.experts.docs[x])
      && (r.store.experts.docs[caller.id].isAvailable <==> value == "available")
      && r.store.experts.docs[caller.id].availability == st.experts.docs[caller.id].availability
      && r.store.experts.docs[caller.id]
         == st.experts.docs[caller.id].(isAvailable := r.store.experts.docs[caller.id].isAvailable)
    ensures WfStore(st) ==> WfStore(r.store)
  {
    if caller.role != "expert" then Refuse(st, 403)
    else if value != "available" && value != "busy" then Refuse(st, 400)
    else if caller.id !in st.experts.docs then Refuse(st, 404)
    else
      var e := st.experts.docs[caller.id];
      Step(st.(experts := Put(st.experts, caller.id, e.(isAvailable := value == "available"))), [], [], Ok(()))
  }

  /** Switching availability never changes any expert's score. */
  lemma AvailabilityLeavesScores(st: Store, caller: Caller, value: string, text: string, w: Weights, cos: Cosine,
                                 id: string)
    requires id in st.experts.docs
    ensures var r := UpdateAvailability(st, caller, value);
      Score(text, r.store.experts.docs[id], w, cos) == Score(text, st.experts.docs[id], w, cos)
  {
    var r := UpdateAvailability(st, caller, value);
    if r.outcome.Ok? && id == caller.id {
      ScoreAvailabilitySource(text, st.experts.docs[id], w, cos, r.store.experts.docs[id].isAvailable);
    }
  }

  // ---------------------------------------------------------------------
  // mark_done (expert.py:272-300), the served variant
  // ---------------------------------------------------------------------

  /** Any user or expert may mark any existing issue done, with no ownership
      check; the reply is true ("closed") exactly when both flags are set
      afterwards. */
  function MarkDone(st: Store, caller: Caller, issueId: string): (r: Step<bool>)
    ensures issueId !in st.issues.docs ==> r == Refuse(st, 404)
    ensures issueId in st.issues.docs && caller.role != "user" && caller.role != "expert" ==> r == Refuse(st, 403)
    ensures issueId in st.issues.docs && (caller.role == "user" || caller.role == "expert") ==>
      && r.outcome.Ok? && r.retries == []
      && OnlyIssue(st.issues, r.store.issues, issueId)
      && r.store == st.(issues := r.store.issues)
      && var before := st.issues.docs[issueId];
         var after := r.store.issues.docs[issueId];
      && after.doneByUser == (before.doneByUser || caller.role == "user")
      && after.doneByExpert == (before.doneByExpert || caller.role == "expert")
      && (r.outcome.value <==> after.doneByUser && after.doneByExpert)
      && after.status == (if r.outcome.value then Closed else before.status)
      && after == before.(doneByUser := after.doneByUser, doneByExpert := after.doneByExpert, status := after.status)
      && r.events == (if r.outcome.value then [Event(Some(before.submittedBy), IssueClosed, About(issueId)),
                                              Event(before.assignedExpert, IssueClosed, About(issueId))]
                      else [])
    ensures WfStore(st) ==> WfStore(r.store)
  {
    if issueId !in st.issues.docs then Refuse(st, 404)
    else if caller.role != "user" && caller.role != "expert" then Refuse(st, 403)
    else
      var before := st.issues.docs[issueId];
      var marked := if caller.role == "user" then before.(doneByUser := true) else before.(doneByExpert := true);
      if marked.doneByUser && marked.doneByExpert then
        Step(st.(issues := Put(st.issues, issueId, marked.(status := Closed))),
             [Event(Some(before.submittedBy), IssueClosed, About(issueId)),
              Event(before.assignedExpert, IssueClosed, About(issueId))], [], Ok(true))
      else Step(st.(issues := Put(st.issues, issueId, marked)), [], [], Ok(false))
  }

  /** One party alone never closes a fresh issue; the second party's mark
      closes it, whichever order they come in and whoever they are. */
  lemma {:induction false} MarkDoneNeedsBoth(st: Store, first: Caller, second: Caller, issueId: string)
    requires issueId in st.issues.docs
    requires !st.issues.docs[issueId].doneByUser && !st.issues.docs[issueId].doneByExpert
    requires (first.role == "user" && second.role == "expert") || (first.role == "expert" && second.role == "user")
    ensures var one := MarkDone(st, first, issueId);
      var two := MarkDone(one.store, second, issueId);
      && one.outcome == Ok(false) && one.store.issues.docs[issueId].status == st.issues.docs[issueId].status
      && two.outcome == Ok(true) && two.store.issues.docs[issueId].status == Closed
  {
  }

  // ---------------------------------------------------------------------
  // reject_issue (expert.py:305-384)
  // ---------------------------------------------------------------------

  /** `reject_issue`: only the assigned expert may reject. The retry after
      the final `return` (expert.py:383-384) is unreachable, so no retry is
      ever scheduled. */
  function RejectIssue(st: Store, caller: Caller, issueId: string, now: Time, cos: Cosine): (r: Step<()>)
    ensures caller.role != "expert" ==> r == Refuse(st, 403)
    ensures caller.role == "expert" && !AssignedTo(st, issueId, caller.id) ==> r == Refuse(st, 404)
    ensures caller.role == "expert" && AssignedTo(st, issueId, caller.id) ==>
      r == Rejected(st, caller.id, issueId, now, cos, true)
  {
    if caller.role != "expert" then Refuse(st, 403)
    else if !AssignedTo(st, issueId, caller.id) then Refuse(st, 404)
    else Rejected(st, caller.id, issueId, now, cos, true)
  }

  /** The pool a rejected issue is offered to. As written (`marked`) it
      tests the string field `availability`, which no handler writes;
      otherwise the boolean `is_available` the other pools use. */
  function RejectFilter(excluded: set<string>, marked: bool): ExpertFilter {
    if marked then MarkedAvailableVerifiedExcept(excluded) else AvailableVerifiedExcept(excluded)
  }

  /** Both rejection pools leave out the excluded experts. */
  lemma RejectFilterExcludes(excluded: set<string>, marked: bool, id: string, e: Expert)
    requires Admits(RejectFilter(excluded, marked), id, e)
    ensures id !in excluded
  {
  }

  /** The submitter's notice, sent only when the issue names a submitter
      (expert.py:367-371, 376-380). */
  function NotifySubmitter(issue: Issue, issueId: string): (r: seq<Event>)
    ensures |r| <= 1
    ensures r != [] <==> issue.submittedBy != ""
  {
    if issue.submittedBy != "" then [Event(Some(issue.submittedBy), IssueAssigned, About(issueId))] else []
  }

  /** The rejection proper (expert.py:314-382): the expert is recorded in
      `rejected_by` and loses one active issue; the issue goes to the best
      verified expert of the pool outside `rejected_by`, whose count rises
      by one, with the reassignment logged and `reassignment_status`
      "waiting"; otherwise it stays pending and unassigned. The submitter
      is notified either way when the issue names one. */
  function Rejected(st: Store, expertId: string, issueId: string, now: Time, cos: Cosine, marked: bool)
    : (r: Step<()>)
    requires AssignedTo(st, issueId, expertId)
    ensures r.outcome == Ok(()) && r.retries == []
    ensures OnlyIssue(st.issues, r.store.issues, issueId)
    ensures HistoryGrows(st.issues, r.store.issues)
    ensures r.store == st.(issues := r.store.issues, experts := r.store.experts)
    ensures r.store.issues.docs[issueId].rejectedBy == st.issues.docs[issueId].rejectedBy + {expertId}
    ensures r.store.issues.docs[issueId].skippedBy == st.issues.docs[issueId].skippedBy
    ensures var before := st.issues.docs[issueId];
      var updated := before.(assignedExpert := None, status := Pending, rejectedBy := before.rejectedBy + {expertId});
      r.store.issues.docs[issueId].assignedExpert.None?
      <==> Pick(Unload(st.experts, expertId), RejectFilter(updated.rejectedBy, marked), updated, cos).None?
    ensures var before := st.issues.docs[issueId];
      var after := r.store.issues.docs[issueId];
      after.assignedExpert.None? ==>
        && after == before.(assignedExpert := None, status := Pending, rejectedBy := after.rejectedBy)
        && LoadsMoved(st.experts, r.store.experts, map[expertId := -1])
        && r.events == NotifySubmitter(before, issueId)
    ensures var before := st.issues.docs[issueId];
      var after := r.store.issues.docs[issueId];
      after.assignedExpert.Some? ==>
        var x := after.assignedExpert.value;
        && x != "" && x != expertId && x !in after.rejectedBy
        && x in st.experts.docs && Admits(RejectFilter(after.rejectedBy, marked), x, st.experts.docs[x])
        && var updated := before.(assignedExpert := None, status := Pending, rejectedBy := before.rejectedBy + {expertId});
        && Some(x) == MatchBest(updated, Pool(Unload(st.experts, expertId), RejectFilter(updated.rejectedBy, marked)),
                                DefaultWeights, cos, true)
        && after == before.(assignedExpert := Some(x), status := Assigned, rejectedBy := after.rejectedBy,
                            reassignmentLog := before.reassignmentLog + [LogEntry(x, now)],
                            reassignmentStatus := Some("waiting"))
        && LoadsMoved(st.experts, r.store.experts, map[expertId := -1, x := 1])
        && r.events == [Event(Some(x), IssueAssigned, About(issueId))] + NotifySubmitter(before, issueId)
    ensures WfStore(st) ==> WfStore(r.store)
  {
    var before := st.issues.docs[issueId];
    var updated := before.(assignedExpert := None, status := Pending, rejectedBy := before.rejectedBy + {expertId});
    var experts1 := Unload(st.experts, expertId);
    var found := Pick(experts1, RejectFilter(updated.rejectedBy, marked), updated, cos);
    if found.Some? then
      var x := found.value;
      RejectFilterExcludes(updated.rejectedBy, marked, x, experts1.docs[x]);
      AdmitsIgnoresLoad(RejectFilter(updated.rejectedBy, marked), x, st.experts.docs[x], experts1.docs[x].activeIssues);
      HandOn(st, expertId, issueId, updated, x, now)
    else Step(Revise(st, issueId, updated, experts1), NotifySubmitter(before, issueId), [], Ok(()))
  }

  /** The hand-over branch of a rejection: `x`, a pool member, takes the
      unassigned issue. */
  function HandOn(st: Store, expertId: string, issueId: string, updated: Issue, x: string, now: Time)
    : (r: Step<()>)
    requires issueId in st.issues.docs && x != expertId
    requires st.issues.docs[issueId].reassignmentLog <= updated.reassignmentLog
    requires st.issues.docs[issueId].rejectedBy <= updated.rejectedBy
    requires st.issues.docs[issueId].skippedBy <= updated.skippedBy
    ensures r.outcome == Ok(()) && r.retries == []
    ensures OnlyIssue(st.issues, r.store.issues, issueId)
    ensures HistoryGrows(st.issues, r.store.issues)
    ensures r.store == st.(issues := r.store.issues, experts := r.store.experts)
    ensures r.store.issues.docs[issueId]
      == updated.(assignedExpert := Some(x), status := Assigned,
                  reassignmentLog := st.issues.docs[issueId].reassignmentLog + [LogEntry(x, now)],
                  reassignmentStatus := Some("waiting"))
    ensures LoadsMoved(st.experts, r.store.experts, map[expertId := -1, x := 1])
    ensures r.events == [Event(Some(x), IssueAssigned, About(issueId))] + NotifySubmitter(st.issues.docs[issueId], issueId)
    ensures WfStore(st) ==> WfStore(r.store)
  {
    var before := st.issues.docs[issueId];
    var final := updated.(assignedExpert := Some(x), status := Assigned,
                          reassignmentLog := before.reassignmentLog + [LogEntry(x, now)],
                          reassignmentStatus := Some("waiting"));
    Step(Revise(st, issueId, final, Shift(st.experts, expertId, x)),
         [Event(Some(x), IssueAssigned, About(issueId))] + NotifySubmitter(before, issueId), [], Ok(()))
  }

  /** As written, experts that only registration and the availability
      switch have touched never carry the string field, so a rejected issue
      is never handed on and, with the retry unreachable, stays unassigned. */
  lemma RejectStrandsRegisteredExperts(st: Store, caller: Caller, issueId: string, now: Time, cos: Cosine)
    requires caller.role == "expert" && AssignedTo(st, issueId, caller.id)
    requires forall id :: id in st.experts.docs ==> st.experts.docs[id].availability == None
    ensures var r := RejectIssue(st, caller, issueId, now, cos);
      r.store.issues.docs[issueId].assignedExpert == None && r.store.issues.docs[issueId].status == Pending
  {
    MarkedPoolEmpty(st.experts, caller.id, st.issues.docs[issueId].rejectedBy + {caller.id}, cos,
                    st.issues.docs[issueId].(assignedExpert := None, status := Pending,
                                             rejectedBy := st.issues.docs[issueId].rejectedBy + {caller.id}));
  }

  /** No expert carries the string field, so the marked pool is empty,
      whatever the loads. */
  lemma MarkedPoolEmpty(experts: Coll<Expert>, expertId: string, excluded: set<string>, cos: Cosine, issue: Issue)
    requires forall id :: id in experts.docs ==> experts.docs[id].availability == None
    ensures Pick(Unload(experts, expertId), MarkedAvailableVerifiedExcept(excluded), issue, cos) == None
  {
    var experts1 := Unload(experts, expertId);
    assert NoneAdmitted(experts1, MarkedAvailableVerifiedExcept(excluded)) by {
      forall id | id in experts1.order && id in experts1.docs
        ensures !Admits(MarkedAvailableVerifiedExcept(excluded), id, experts1.docs[id])
      {
        assert id in experts.docs;
      }
    }
  }

  /** With the pool built on `is_available`, the default weights, a bounded
      cosine, non-negative trust scores and non-empty ids, a rejected issue
      is handed on whenever some available verified expert has not rejected
      it. */
  lemma RejectIntendedReassigns(st: Store, expertId: string, issueId: string, now: Time, cos: Cosine)
    requires AssignedTo(st, issueId, expertId)
    requires CosineBounded(cos)
    requires forall id :: id in st.experts.docs ==> st.experts.docs[id].trustScore >= 0.0 && id != ""
    requires exists y :: (y in st.experts.order && y in st.experts.docs && y != expertId
                          && y !in st.issues.docs[issueId].rejectedBy
                          && st.experts.docs[y].isAvailable && st.experts.docs[y].isVerified)
    ensures Rejected(st, expertId, issueId, now, cos, false).store.issues.docs[issueId].assignedExpert.Some?
  {
    var before := st.issues.docs[issueId];
    var updated := before.(assignedExpert := None, status := Pending, rejectedBy := before.rejectedBy + {expertId});
    var y :| y in st.experts.order && y in st.experts.docs && y != expertId
      && y !in before.rejectedBy && st.experts.docs[y].isAvailable && st.experts.docs[y].isVerified;
    assert y !in updated.rejectedBy;
    IntendedPoolPicks(st.experts, expertId, updated, cos);
  }

  /** Once one expert's load drops, the `is_available` pool still has the
      given available verified expert, so a match is found. */
  lemma IntendedPoolPicks(experts: Coll<Expert>, expertId: string, issue: Issue, cos: Cosine)
    requires CosineBounded(cos)
    requires forall id :: id in experts.docs ==> experts.docs[id].trustScore >= 0.0 && id != ""
    requires exists y :: (y in experts.order && y in experts.docs && y !in issue.rejectedBy
                          && experts.docs[y].isAvailable && experts.docs[y].isVerified)
    ensures Pick(Unload(experts, expertId), AvailableVerifiedExcept(issue.rejectedBy), issue, cos).Some?
  {
    var experts1 := Unload(experts, expertId);
    var f := AvailableVerifiedExcept(issue.rejectedBy);
    var pool := Pool(experts1, f);
    var y :| y in experts.order && y in experts.docs && y !in issue.rejectedBy
      && experts.docs[y].isAvailable && experts.docs[y].isVerified;
    assert y in experts1.order && Admits(f, y, experts1.docs[y]);
    assert pool != [];
    forall k | 0 <= k < |pool| ensures pool[k].expert.trustScore >= 0.0 {
      assert pool[k].id in experts.docs;
    }
    MatchBestNonEmpty(issue, pool, cos);
    var m := MatchBest(issue, pool, DefaultWeights, cos, true);
    var k :| 0 <= k < |pool| && pool[k].id == m.value;
    assert m.value in experts.docs;
  }
}
