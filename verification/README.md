# Distributed troubleshooter — a Dafny model of its core

The distributed troubleshooter is a help-desk service. Users report technical
issues. The service files each issue under a region and assigns it to the
best-scoring available, verified expert. Experts accept, resolve or reject
issues. Users escalate issues away from an expert. Both parties chat and close
the issue, then rate each other. An administrator verifies experts and watches
per-region load.

This project models the service's core as pure functions over an immutable
database value:

- `Common` and `Records`: the MongoDB collections (documents by id, plus the
  natural `find` order) and the documents.
- `Text`: `clean_text`, `split`, `strip`/`trim`.
- `Scoring`: the five-term expert score.
- `Selection`: `match_best_expert` and its regional-first tie rule,
  `get_best_region`, and `retry_assignment`.
- `UserRoutes`, `ExpertRoutes`, `ChatRoutes`, `StatusRoutes`, `AdminRoutes`,
  `Ratings`: the HTTP handlers.
- `Auth`: registration and login.
- `Quiz` and `Signup`: the browser-side quiz scoring, tag parsing and
  dashboard redirect.

Every handler returns a `Step`. A `Step` holds:

- the new database;
- the WebSocket events it would send, in order;
- the ids handed to the background retry task;
- either the reply or the HTTP status of the exception it raised.

A refused call changes nothing.

External services become parameters:

- The sentence-embedding cosine is the function parameter `cos`. Its range
  [-1, 1] is a hypothesis of the lemmas that need it.
- The clock is `now`.
- Fresh `uuid4` ids are parameters.
- `bcrypt` is a hash parameter at registration and a `checkpw` predicate at
  login.
- The caller's identity is the decoded token, a `Caller`.

app/main.py mounts expert.py's router before chat.py's and status.py's
(app/main.py:24-31). So the served `mark_done` and `verify_expert` are the
expert.py ones. The shadowed variants are modelled too, as
`ChatRoutes.MarkIssueDone`, `StatusRoutes.MarkDone` and
`AdminRoutes.VerifyExpertTagged`.

An expert document has two availability fields:

- the boolean `is_available`, written by registration and
  `update_availability`;
- the string `availability`, which no handler writes.

The score, the reject pool and the region balancer read the string field. The
report, escalate and retry pools, and the region statistics, read the boolean.
The model keeps both fields (`isAvailable`, `availability`). Several lemmas
below state what follows from this split.

## Model

| member | source | states |
|---|---|---|
| Text.CleanText | distributed_troubleshooter/app/services/utils.py:32-33 | the result holds only lower-case letters, digits and spaces, is no longer than the input, and keeps every letter, digit and space of the input, lowered |
| Text.CleanTextAppend | distributed_troubleshooter/app/services/utils.py:32-33 | cleaning a concatenation cleans each part separately |
| Text.CleanTextChar | distributed_troubleshooter/app/services/utils.py:32-33 | a single character is lowered and kept when it is a letter, digit or space, and deleted otherwise; with CleanTextAppend this fixes the result for every text |
| Text.CleanTextIdempotent | distributed_troubleshooter/app/services/utils.py:32-33 | cleaning twice is cleaning once |
| Text.CleanTextFixesClean | distributed_troubleshooter/app/services/utils.py:32-33 | a text is left unchanged by cleaning exactly when it already consists of lower-case letters, digits and spaces |
| Text.SplitOn | distributed_troubleshooter/app/services/utils.py:74 | `n` separators give `n + 1` pieces, none containing the separator |
| Text.JoinSplit | distributed_troubleshooter/frontend/js/auth.js:42 | joining the pieces of a split with the separator gives the original text back |
| Text.SplitJoin | distributed_troubleshooter/frontend/js/auth.js:42 | splitting a join of separator-free pieces gives the pieces back |
| Text.Trim | distributed_troubleshooter/app/services/utils.py:74 | the result is a contiguous slice of the input with only whitespace before and after it, and has no leading or trailing whitespace itself; an already trimmed text is unchanged |
| Scoring.Jaccard | distributed_troubleshooter/app/services/utils.py:35-38 | zero when either set is empty, otherwise intersection size over union size, always within [0, 1] |
| Scoring.JaccardSymmetric | distributed_troubleshooter/app/services/utils.py:35-38 | the similarity does not depend on argument order |
| Scoring.JaccardSelf | distributed_troubleshooter/app/services/utils.py:35-38 | a non-empty set is fully similar to itself |
| Scoring.SkillMatch | distributed_troubleshooter/app/services/utils.py:40-43 | the keyword/tag overlap lies in [0, 1] and is zero for an expert without tags |
| Scoring.NlpSimilarity | distributed_troubleshooter/app/services/utils.py:45-51 | zero without tags, otherwise within [-1, 1] when the cosine is |
| Scoring.ScoringTags | distributed_troubleshooter/app/services/utils.py:72-76 | a tag list is lower-cased element by element; a comma-separated tag string yields one tag per comma plus one, each piece stripped and lower-cased |
| Scoring.InverseLoad | distributed_troubleshooter/app/services/utils.py:69-70 | the load term is the reciprocal of the clamped load plus one, in (0, 1], and 1 for no load |
| Scoring.InverseLoadAntitone | distributed_troubleshooter/app/services/utils.py:69-70 | more active issues never raise the load term |
| Scoring.ScoreTerms | distributed_troubleshooter/app/services/utils.py:68-80 | each sub-score's range; the availability term is 1 exactly when the string field says "available"; trust is the stored score |
| Scoring.ScoreAboveFloor | distributed_troubleshooter/app/services/utils.py:58 | with the default weights, non-negative trust and a bounded cosine, every expert beats the initial best score of -1 |
| Scoring.ScoreAvailabilitySource | distributed_troubleshooter/app/services/utils.py:78 | the score ignores the `is_available` flag and rises by exactly the availability weight when the string field says "available" |
| Scoring.CombineAvailability | distributed_troubleshooter/app/services/utils.py:82-88 | switching the availability term on adds exactly its weight to the weighted sum |
| Selection.PoolFrom | distributed_troubleshooter/app/services/utils.py:149-153 | every pool member is a listed expert the filter admits, and every listed expert it admits is in the pool |
| Selection.Pool | distributed_troubleshooter/app/routes/user.py:37-53 | the pool is empty exactly when no stored expert passes the filter, and holds every one that does |
| Selection.Regional | distributed_troubleshooter/app/services/utils.py:63 | the regional list is exactly the candidates of the issue's region |
| Selection.ScoresAt | distributed_troubleshooter/app/services/utils.py:65-88 | the k-th score is the k-th candidate's score |
| Selection.PassLeads | distributed_troubleshooter/app/services/utils.py:97-99 | one scoring pass ends on a maximal score, the earliest one that strictly beats the running best, or keeps the running best |
| Selection.PassFromFloor | distributed_troubleshooter/app/services/utils.py:57-58 | starting from -1, nobody is chosen exactly when every score is at most -1; otherwise the chosen index holds the first maximum |
| Selection.DecideSpec | distributed_troubleshooter/app/services/utils.py:101-107 | a regional winner if any regional score beats -1; else, when allowed, a cross-region winner; else none |
| Selection.MatchBest | distributed_troubleshooter/app/services/utils.py:53-109 | the chosen id is one of the candidates, and no candidates means no choice |
| Selection.Pick | distributed_troubleshooter/app/routes/user.py:89-94 | the handlers' choice is `match_best_expert`'s result over the filtered pool when that is a non-empty id, and none otherwise; a chosen id is a stored expert the filter admits |
| Selection.MatchBestChoice | distributed_troubleshooter/app/services/utils.py:53-109 | the chosen expert is the first regional expert with the top score, or the first top scorer overall when no regional one beats -1 and crossing regions is allowed, or nobody |
| Selection.RegionalPreferred | distributed_troubleshooter/app/services/utils.py:101-107 | with default weights, whenever an expert of the issue's region is a candidate, the choice lies in that region |
| Selection.MatchBestNonEmpty | distributed_troubleshooter/app/services/utils.py:53-109 | with default weights and non-negative trust, a non-empty candidate list always yields a choice |
| Selection.RegionScores | distributed_troubleshooter/app/services/utils.py:119-131 | one score per region, twice the marked-available verified experts minus the open issues |
| Selection.FirstMaxSpec | distributed_troubleshooter/app/services/utils.py:135-137 | the scan returns the first index of the maximum |
| Selection.BestRegion | distributed_troubleshooter/app/services/utils.py:114-139 | the result is one of the four regions |
| Selection.BestRegionMaximal | distributed_troubleshooter/app/services/utils.py:114-139 | the chosen region has the highest score, and every earlier region a strictly lower one |
| Selection.RetryAssignment | distributed_troubleshooter/app/services/utils.py:141-165 | a missing or already assigned issue is left alone; otherwise the expert `match_best_expert` chooses from the available verified experts outside `rejected_by` gets the issue, one more active issue, and both parties are notified; for an unassigned issue the store is left unchanged exactly when that choice is empty; the store changes exactly when events are sent |
| Stats.SumAppend | distributed_troubleshooter/app/routes/ratings.py:54-56 | appending a value adds it to the running total |
| Stats.SumBounds | distributed_troubleshooter/app/routes/ratings.py:54-56 | a total of values in [lo, hi] lies between count times lo and count times hi |
| Stats.MeanBounds | distributed_troubleshooter/app/routes/ratings.py:57 | the mean of values in [lo, hi] lies in [lo, hi] |
| UserRoutes.HomeRegion | distributed_troubleshooter/app/routes/user.py:32-34 | the caller's region, or "north"; never empty |
| UserRoutes.ReportIssue | distributed_troubleshooter/app/routes/user.py:27-113 | non-users get 403; otherwise the new issue is stored under the home region if it has an available verified expert, else under the balancer's region, with a system message and a creation event, keeping the form's title, description, category and urgency, and is assigned to the pool expert `match_best_expert` chooses, handed to the retry task only when that choice is empty, or left pending when the pool is empty |
| UserRoutes.ReportAssignsWhenPoolNonEmpty | distributed_troubleshooter/app/routes/user.py:84-107 | with default weights and non-negative trust, a report never falls through to the retry task: it is assigned or the pool is empty |
| Selection.PickFromStaffedRegion | distributed_troubleshooter/app/routes/user.py:86-94 | with cosines in [-1, 1], non-negative trust and non-empty ids, a region with an available verified expert always yields a match, so the retry branch is reached only through an empty pool |
| UserRoutes.DeleteIssue | distributed_troubleshooter/app/routes/user.py:141-155 | only the submitter deletes; the issue leaves the store and everything else stays; otherwise 404 |
| UserRoutes.EscalateIssue | distributed_troubleshooter/app/routes/user.py:157-168 | 403 for non-users, 404 unless the caller submitted the issue, no change when nobody is assigned |
| UserRoutes.Escalated | distributed_troubleshooter/app/routes/user.py:170-226 | the current expert is skipped and loses one active issue; the expert `match_best_expert` chooses among the available verified experts outside `rejected_by` and `skipped_by`, with the old expert's load already lowered, takes over with a log entry and three events, or the issue returns to pending with one notice, which happens exactly when that choice is empty |
| ExpertRoutes.AcceptAssignment | distributed_troubleshooter/app/routes/expert.py:48-63 | only the assigned expert accepts; the status becomes in progress and nothing else changes |
| ExpertRoutes.SubmitResolution | distributed_troubleshooter/app/routes/expert.py:72-107 | only the assigned expert resolves; notes and time are recorded, both done flags cleared, the expert's load drops by one, the submitter is notified |
| ExpertRoutes.ResolutionRepeats | distributed_troubleshooter/app/routes/expert.py:95-98 | resolving twice succeeds twice and lowers the expert's load by two |
| ExpertRoutes.TrustIsRunningMean | distributed_troubleshooter/app/routes/expert.py:136-143 | the trust update turns the mean of `n` values into the mean with the rating over five appended |
| ExpertRoutes.RateExpert | distributed_troubleshooter/app/routes/expert.py:118-146 | only users rate; the feedback is stored even for an unknown expert (404); a known expert's score and vote count are updated and nothing else changes |
| ExpertRoutes.RateExpertKeepsMean | distributed_troubleshooter/app/routes/expert.py:136-143 | an expert whose score is the mean of its votes stays so after a rating |
| ExpertRoutes.RateUserWith | distributed_troubleshooter/app/routes/expert.py:157-188 | only experts rate; the feedback is stored even for an unknown user (404); the known user's score is updated with a missing vote count read as 1 |
| ExpertRoutes.RateUser | distributed_troubleshooter/app/routes/expert.py:176-185 | the stored vote count is the old one, missing read as 0, plus one |
| ExpertRoutes.RateUserLosesMean | distributed_troubleshooter/app/routes/expert.py:176-185 | a new user rated 5 twice ends at 0.875, not at the mean of all three values |
| ExpertRoutes.RateUserIntendedKeepsMean | distributed_troubleshooter/app/routes/expert.py:176-185 | with the vote count stored as read, a user's score stays the mean of its votes |
| ExpertRoutes.VerifyExpert | distributed_troubleshooter/app/routes/expert.py:200-222 | admins only, 404 for unknown experts; an unverified expert becomes verified with the given or default notes, an already verified one is untouched |
| ExpertRoutes.VerifyExpertIdempotent | distributed_troubleshooter/app/routes/expert.py:200-222 | verifying again changes nothing |
| ExpertRoutes.UpdateAvailability | distributed_troubleshooter/app/routes/expert.py:252-270 | only "available" or "busy" from a known expert is accepted; it sets the boolean flag and leaves the string field |
| ExpertRoutes.AvailabilityLeavesScores | distributed_troubleshooter/app/routes/expert.py:252-270 | toggling availability never changes any expert's score |
| ExpertRoutes.MarkDone | distributed_troubleshooter/app/routes/expert.py:272-300 | a user or expert sets its own flag, on any issue; the issue closes with two events exactly when both flags are set |
| ExpertRoutes.MarkDoneNeedsBoth | distributed_troubleshooter/app/routes/expert.py:281-300 | one party's mark leaves the issue open, the other party's then closes it |
| ExpertRoutes.RejectIssue | distributed_troubleshooter/app/routes/expert.py:305-382 | only the assigned expert rejects, and the rejection picks the next expert from the marked-available pool |
| ExpertRoutes.NotifySubmitter | distributed_troubleshooter/app/routes/expert.py:367-371 | at most one notice, sent exactly when the issue names a submitter |
| ExpertRoutes.Rejected | distributed_troubleshooter/app/routes/expert.py:314-382 | the rejecter joins `rejected_by` and loses one active issue; the issue goes to the expert `match_best_expert` chooses from the pool outside `rejected_by`, with a log entry, or back to pending exactly when that choice is empty |
| ExpertRoutes.RejectStrandsRegisteredExperts | distributed_troubleshooter/app/routes/expert.py:333-337 | when no expert has the string field set, as after registration, a rejected issue always returns to pending |
| ExpertRoutes.MarkedPoolEmpty | distributed_troubleshooter/app/routes/expert.py:333-340 | when no expert carries the string availability field, the rejection pool is empty and the match finds no one |
| ExpertRoutes.RejectIntendedReassigns | distributed_troubleshooter/app/routes/expert.py:333-337 | filtering on the boolean flag, a rejection is reassigned whenever an available verified expert outside `rejected_by` exists |
| ExpertRoutes.IntendedPoolPicks | distributed_troubleshooter/app/routes/expert.py:323-342 | after the rejecter loses one active issue, a pool on the boolean flag that keeps any expert outside `rejected_by` yields a match |
| ChatRoutes.Recipient | distributed_troubleshooter/app/routes/chat.py:46 | a user's message goes to the assigned expert, anyone else's to the submitter |
| ChatRoutes.SendMessage | distributed_troubleshooter/app/routes/chat.py:17-52 | 404, 403 and 400 in that order; a message is stored and announced exactly when the issue exists, the caller may talk and the content is non-empty |
| ChatRoutes.ThreadAppend | distributed_troubleshooter/app/routes/chat.py:58-79 | appending a message extends its issue's thread by it and no other thread |
| ChatRoutes.GetMessages | distributed_troubleshooter/app/routes/chat.py:58-79 | an unknown issue lists nothing to anyone; otherwise the parties get exactly the issue's messages and others 403 |
| ChatRoutes.SendThenGet | distributed_troubleshooter/app/routes/chat.py:17-79 | a sent message is listed last, after the messages listed before |
| ChatRoutes.MarkIssueDone | distributed_troubleshooter/app/routes/chat.py:84-121 | only the issue's own user or expert sets its flag; the issue closes with two events exactly when both flags are set |
| StatusRoutes.MarkDone | distributed_troubleshooter/app/routes/status.py:11-51 | only the assigned expert or the submitter marks; closing stamps `closed_at` and sends two rating prompts; otherwise the status is kept |
| StatusRoutes.ClosePromptsCross | distributed_troubleshooter/app/routes/status.py:37-47 | each closing prompt goes to one party and names the other |
| AdminRoutes.AdminLogin | distributed_troubleshooter/app/routes/admin.py:23-27 | the token exactly for username "admin" with password "admin123", else 401 |
| AdminRoutes.VerifyExpertTagged | distributed_troubleshooter/app/routes/admin.py:44-67 | admins only, 404 for unknown experts; verification sets the flag, the notes (default "Verified by admin") and the tag list, nothing else |
| AdminRoutes.TaggedVerificationFeedsScorer | distributed_troubleshooter/app/routes/admin.py:62 | the scorer sees exactly the administrator's tags, lower-cased |
| AdminRoutes.RegionStats | distributed_troubleshooter/app/routes/admin.py:72-94 | exactly the four regions, with the open issues the balancer counts and the verified experts with the boolean flag set |
| AdminRoutes.AvailabilityFieldsDiverge | distributed_troubleshooter/app/routes/admin.py:83-87 | an example store: one available verified expert without the string field counts for the statistics and not for the balancer |
| AdminRoutes.AvailabilityCountsDiffer | distributed_troubleshooter/app/routes/admin.py:83-87 | for every store and region, the statistics count plus the experts marked only by the string field equals the balancer's count plus the experts flagged only by the boolean |
| AdminRoutes.AvailabilityFieldsAgree | distributed_troubleshooter/app/routes/admin.py:83-87 | where the two availability fields agree on every verified expert of a region, the statistics page and the balancer count the same experts |
| AdminRoutes.InRegion | distributed_troubleshooter/app/routes/admin.py:107-111 | exactly the listed issues of the region |
| AdminRoutes.Group | distributed_troubleshooter/app/routes/admin.py:104-111 | the keys are the four regions plus every issue's region, and each group is that region's issues in order |
| AdminRoutes.IssuesByRegion | distributed_troubleshooter/app/routes/admin.py:99-113 | admins only; the four regions always have a group and every stored issue is in the group of its own region and no other |
| AdminRoutes.Rerouted | distributed_troubleshooter/app/routes/admin.py:120-121 | exactly the issues with at least two log entries |
| AdminRoutes.ReroutedIssues | distributed_troubleshooter/app/routes/admin.py:115-131 | admins only; exactly the stored issues reassigned at least twice |
| Ratings.StarsForAppend | distributed_troubleshooter/app/routes/ratings.py:51-56 | a new rating adds its stars to its recipient's list only |
| Ratings.StarsForBounds | distributed_troubleshooter/app/routes/ratings.py:51-56 | stored stars within 1..5 give received stars within 1..5 |
| Ratings.SubmitRating | distributed_troubleshooter/app/routes/ratings.py:23-76 | stars outside 1..5 and repeats are refused unchanged; otherwise the rating is stored, and for a user or expert recipient its score becomes the mean of all stars it received, for any other role 400 with the rating kept |
| Ratings.AverageWithinStars | distributed_troubleshooter/app/routes/ratings.py:51-57 | the new score is the mean of the earlier stars and the new ones, lies in [1, 5], and the stored stars stay valid |
| Ratings.MeanWithNewStars | distributed_troubleshooter/app/routes/ratings.py:51-57 | earlier stars in 1..5 plus a new star in 1..5 average to a value in [1, 5] |
| Ratings.SecondRatingRefused | distributed_troubleshooter/app/routes/ratings.py:29-35 | the same rater cannot rate the same recipient for the same issue twice |
| Auth.Register | distributed_troubleshooter/app/auth/auth_router.py:40-86 | a taken email or a role other than user or expert is refused with no insert; a new expert starts unverified, unavailable, with no load, trust 0.5 over one vote and three slots; a new user has trust 0.5 and no vote count |
| Auth.RegisterTakesEmail | distributed_troubleshooter/app/auth/auth_router.py:42-43 | once registered, the email cannot register again |
| Auth.FirstFrom | distributed_troubleshooter/app/auth/auth_router.py:93-98 | the first document in collection order with the email, or none when no document has it |
| Auth.Login | distributed_troubleshooter/app/auth/auth_router.py:91-131 | unknown emails get 401, and every failure is a 401; users are found before experts; the administrator emails get the admin role; the claims carry the document's id and region |
| Auth.LoginChecksUserPassword | distributed_troubleshooter/app/auth/auth_router.py:93-113 | the first user document with the email decides: a wrong password gets 401 whatever the document's id, a right one a session with that document's region |
| Auth.LoginChecksExpertPassword | distributed_troubleshooter/app/auth/auth_router.py:97-113 | with no user holding the email, the first expert document decides: a wrong password gets 401, a right one the expert's session |
| Auth.RegisterThenLogin | distributed_troubleshooter/app/auth/auth_router.py:91-131 | registering and logging in with an accepted password yields the new id, region and role |
| Quiz.PointsBounds | distributed_troubleshooter/frontend/js/quiz.js:25-28 | the score is at most the number of questions, and equals it exactly when every answer matches its key |
| Quiz.CorrectingAddsOne | distributed_troubleshooter/frontend/js/quiz.js:26-28 | correcting one wrong answer adds exactly one point |
| Quiz.SubmitQuiz | distributed_troubleshooter/frontend/js/quiz.js:7-28 | nothing is scored unless all three questions are answered; the score is the number of matches, at most 3, and 3 exactly for b, a, c |
| Signup.NonEmptyKeepsOrder | distributed_troubleshooter/frontend/js/auth.js:42 | dropping empty pieces keeps the rest in order |
| Signup.ParseTags | distributed_troubleshooter/frontend/js/auth.js:41-42 | no tag is empty or untrimmed, every piece that is non-empty after trimming is kept, there are at most one more tags than commas, and an empty field gives none |
| Signup.ParseTagsKeepsOrder | distributed_troubleshooter/frontend/js/auth.js:42 | the tags appear in the order typed |
| Signup.ParseJoinedTags | distributed_troubleshooter/frontend/js/auth.js:41-42 | comma-joined clean tags parse back to themselves |
| Signup.BuildSignup | distributed_troubleshooter/frontend/js/auth.js:44-54 | tags are sent exactly when the role is expert; the other fields are passed through |
| Signup.Dashboard | distributed_troubleshooter/frontend/js/auth.js:98-106 | user, expert and admin each have a dashboard, other roles none |
| Signup.DashboardsDistinct | distributed_troubleshooter/frontend/js/auth.js:98-106 | different roles reach different dashboards |
| Signup.AfterLogin | distributed_troubleshooter/frontend/js/auth.js:15-24 | the page redirects only for a successful reply with an id, to the role's dashboard |
| Signup.LoginAlwaysRedirects | distributed_troubleshooter/frontend/js/auth.js:17-21 | every role the server's login issues has a dashboard, so a successful login with an id always redirects |

## Left out

- MongoDB itself: queries are set comprehensions and scans over the collection order. A `sort("timestamp")` is the storage order, because the clock never runs backwards.
- The WebSocket transport and the `/ws` endpoint: notifications are the ordered `events` of a step.
- `asyncio.sleep` and background scheduling: the retry task is the separately invoked `Selection.RetryAssignment`, and nothing cancels it. The retry scheduled after `return` in `reject_issue` (expert.py:383-384) can never run, so it is not modelled.
- `send_message` reads the JSON body as an object whose `message` is a string or missing (`ChatRoutes.SendMessage` takes `Option<string>`). Other JSON is not modelled. A number or other non-string `message` is stored when truthy and refused with 400 when falsy (`0`, `false`, `[]`). A body that is not an object makes `body.get` raise (chat.py:31-34).
- The sentence-transformers model: the cosine is a parameter, bounded in [-1, 1] only where a lemma needs it.
- JWT encoding, token expiry and `get_current_user`: a handler receives the decoded `Caller`.
- bcrypt: a hash parameter at registration and a `checkpw` predicate at login. The 500 for a document without a password cannot arise, because every modelled document has a hash.
- `round(..., 2)`: scores and averages are exact reals.
- `print` logging and the `datetime` values: the clock is an integer parameter.
- Floating point: weights and scores are exact reals.
- `str.lower`, `strip` and `trim` cover ASCII letters and ASCII whitespace only.
- Missing document fields read through `.get(..., default)`: the model's documents always carry every field, with the registration defaults.
- The 400 at user.py:33-34 cannot be raised, because the region defaults to "north" the line before.
- app/routes/profile.py (profile field updates) and app/init_db.py (collection set-up) are not part of this model.
- `get_assignments`, `get_my_issues`, `experts_unverified` and `submit_quiz_score` are plain listings or single-field writes outside the modelled core.
- The browser's DOM, `localStorage` and `fetch`: the pages are modelled as functions from form values to request bodies and from replies to target pages. The auto-login after an expert signs up is not modelled.
- `expert_tags` in the signup body: the registration request schema does not declare the field, so the server drops it and a new expert starts with no tags (`Auth.NewExpert`).
- Concurrency: every handler is one atomic step. Interleavings of two requests, and of a request with the retry task, are not modelled.
- Selection.MatchBest: its own contract only says the choice is a candidate; which candidate wins is stated separately by `Selection.MatchBestChoice`.
- ExpertRoutes.RateUser: its own contract states only the stored vote count; the full update is stated by `ExpertRoutes.RateUserWith`, which it wraps.

## Findings

| source | as written | input that shows it | evidently intended | confidence | as-written member | corrected member |
|---|---|---|---|---|---|---|
| distributed_troubleshooter/app/routes/expert.py:333-337 | the reassignment pool after a rejection filters on the string field `availability == "available"`, which no handler writes | any store whose experts all came from registration and `update_availability`: every rejected issue goes back to pending, even with available verified experts | filter on `is_available`, as the report, escalate and retry pools do | not executed | ExpertRoutes.RejectStrandsRegisteredExperts | ExpertRoutes.RejectIntendedReassigns |
| distributed_troubleshooter/app/routes/expert.py:176-185 | `rate_user` reads a missing `trust_votes` as 1, but `$inc` on the missing field stores 1, so the next rating counts one vote too few | a new user (trust 0.5) rated 5 twice: 0.875 instead of the mean 2.5 / 3 | store the vote count that was read, plus one | not executed | ExpertRoutes.RateUserLosesMean | ExpertRoutes.RateUserIntendedKeepsMean |
