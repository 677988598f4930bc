/** The generic rating route of app/routes/ratings.py: one rating per rater,
    issue and recipient, and the recipient's trust score reset to the mean
    of every rating it has received. */
module Ratings {
  import opened Common
  import opened Records
  import opened Stats

  /** The stars received by `recipientId`, as reals, in storage order. */
  function StarsFor(ratings: seq<Rating>, recipientId: string): (r: seq<real>)
    ensures |r| <= |ratings|
    decreases |ratings|
  {
    if ratings == [] then []
    else
      var rest := StarsFor(ratings[..|ratings| - 1], recipientId);
      var last := ratings[|ratings| - 1];
      if last.recipientId == recipientId then rest + [last.stars as real] else rest
  }

  lemma StarsForAppend(ratings: seq<Rating>, x: Rating, recipientId: string)
    ensures StarsFor(ratings + [x], recipientId)
         == StarsFor(ratings, recipientId) + (if x.recipientId == recipientId then [x.stars as real] else [])
  {
    assert (ratings + [x])[..|ratings|] == ratings;
  }

  /** Every stored rating has between one and five stars. */
  predicate StarsValid(ratings: seq<Rating>) {
    forall i :: 0 <= i < |ratings| ==> 1 <= ratings[i].stars <= 5
  }

  lemma {:induction false} StarsForBounds(ratings: seq<Rating>, recipientId: string)
    requires StarsValid(ratings)
    ensures var xs := StarsFor(ratings, recipientId); forall i :: 0 <= i < |xs| ==> 1.0 <= xs[i] <= 5.0
    decreases |ratings|
  {
    if ratings != [] {
      var prefix := ratings[..|ratings| - 1];
      assert forall i :: 0 <= i < |prefix| ==> prefix[i] == ratings[i];
      StarsForBounds(prefix, recipientId);
      var last := ratings[|ratings| - 1];
      assert 1 <= last.stars <= 5;
      assert StarsFor(ratings, recipientId)
          == StarsFor(prefix, recipientId) + (if last.recipientId == recipientId then [last.stars as real] else []);
    }
  }

  /** A rating by `ratedBy` of `recipientId` for `issueId` is already stored
      (ratings.py:29-35). */
  predicate AlreadyRated(ratings: seq<Rating>, issueId: string, ratedBy: string, recipientId: string) {
    exists i :: 0 <= i < |ratings| && ratings[i].issueId == issueId && ratings[i].ratedBy == ratedBy
                && ratings[i].recipientId == recipientId
  }

  /** Sets the trust score of the document keyed `id`, if there is one: an
      `update_one` that matches nothing changes nothing. */
  function SetExpertTrust(experts: Coll<Expert>, id: string, score: real): Coll<Expert> {
    if id in experts.docs then Put(experts, id, experts.docs[id].(trustScore := score)) else experts
  }

  function SetUserTrust(users: Coll<User>, id: string, score: real): Coll<User> {
    if id in users.docs then Put(users, id, users.docs[id].(trustScore := score)) else users
  }

  /** `submit_rating` (ratings.py:23-76). The reply is the new average. A
      recipient role other than "user" or "expert" is refused only after the
      rating has been stored. */
  function SubmitRating(st: Store, caller: Caller, issueId: string, recipientId: string, recipientRole: string,
                        stars: int, comment: string, now: Time): (r: Step<real>)
    ensures !(1 <= stars <= 5) ==> r == Refuse(st, 400)
    ensures 1 <= stars <= 5 && AlreadyRated(st.ratings, issueId, caller.id, recipientId) ==> r == Refuse(st, 400)
    ensures r.outcome.Ok? <==>
      && 1 <= stars <= 5 && !AlreadyRated(st.ratings, issueId, caller.id, recipientId)
      && (recipientRole == "expert" || recipientRole == "user")
    ensures r.events == [] && r.retries == []
    ensures 1 <= stars <= 5 && !AlreadyRated(st.ratings, issueId, caller.id, recipientId) ==>
      && r.store.ratings == st.ratings + [Rating(issueId, caller.id, caller.role, recipientId, recipientRole,
                                                 stars, comment, now)]
      && r.store.issues == st.issues && r.store.messages == st.messages
      && r.store.feedback == st.feedback && r.store.userFeedback == st.userFeedback
      && (recipientRole == "expert" ==> r.store.users == st.users)
      && (recipientRole != "expert" ==> r.store.experts == st.experts)
      && (recipientRole != "user" ==> r.store.users == st.users)
      && (recipientRole != "expert" && recipientRole != "user" ==> r.outcome == Fail(400))
    ensures r.outcome.Ok? ==>
      && r.outcome.value == Mean(StarsFor(r.store.ratings, recipientId))
      && (recipientRole == "expert" ==> r.store.experts == SetExpertTrust(st.experts, recipientId, r.outcome.value))
      && (recipientRole == "user" ==> r.store.users == SetUserTrust(st.users, recipientId, r.outcome.value))
  {
    if !(1 <= stars <= 5) then Refuse(st, 400)
    else if AlreadyRated(st.ratings, issueId, caller.id, recipientId) then Refuse(st, 400)
    else
      var x := Rating(issueId, caller.id, caller.role, recipientId, recipientRole, stars, comment, now);
      var ratings := st.ratings + [x];
      StarsForAppend(st.ratings, x, recipientId);
      var avg := Mean(StarsFor(ratings, recipientId));
      if recipientRole == "expert" then
        Step(st.(ratings := ratings, experts := SetExpertTrust(st.experts, recipientId, avg)), [], [], Ok(avg))
      else if recipientRole == "user" then
        Step(st.(ratings := ratings, users := SetUserTrust(st.users, recipientId, avg)), [], [], Ok(avg))
      else Step(st.(ratings := ratings), [], [], Fail(400))
  }

  /** The new score is the mean of the earlier ratings of the recipient and
      this one, so it stays within one to five stars, and the stored ratings
      stay valid. */
  lemma AverageWithinStars(st: Store, caller: Caller, issueId: string, recipientId: string, recipientRole: string,
                           stars: int, comment: string, now: Time)
    requires StarsValid(st.ratings)
    ensures var r := SubmitRating(st, caller, issueId, recipientId, recipientRole, stars, comment, now);
      && StarsValid(r.store.ratings)
      && (r.outcome.Ok? ==>
            && 1.0 <= r.outcome.value <= 5.0
            && var before := StarsFor(st.ratings, recipientId);
               r.outcome.value == (Sum(before) + stars as real) / ((|before| + 1) as real))
  {
    var r := SubmitRating(st, caller, issueId, recipientId, recipientRole, stars, comment, now);
    if 1 <= stars <= 5 && !AlreadyRated(st.ratings, issueId, caller.id, recipientId) {
      var x := Rating(issueId, caller.id, caller.role, recipientId, recipientRole, stars, comment, now);
      assert r.store.ratings == st.ratings + [x];
      assert StarsValid(r.store.ratings) by {
        forall i | 0 <= i < |r.store.ratings| ensures 1 <= r.store.ratings[i].stars <= 5 {
          if i < |st.ratings| { assert r.store.ratings[i] == st.ratings[i]; }
        }
      }
      StarsForAppend(st.ratings, x, recipientId);
      StarsForBounds(st.ratings, recipientId);
      MeanWithNewStars(StarsFor(st.ratings, recipientId), stars);
      MeanAppended(StarsFor(st.ratings, recipientId), stars as real);
    }
  }

  /** The mean after one more value is the running mean. */
  lemma MeanAppended(before: seq<real>, v: real)
    ensures Mean(before + [v]) == (Sum(before) + v) / ((|before| + 1) as real)
  {
    SumAppend(before, v);
    assert |before + [v]| == |before| + 1;
  }

  /** One more rating of one to five stars keeps the mean within one to
      five stars. */
  lemma MeanWithNewStars(before: seq<real>, stars: int)
    requires forall i :: 0 <= i < |before| ==> 1.0 <= before[i] <= 5.0
    requires 1 <= stars <= 5
    ensures 1.0 <= Mean(before + [stars as real]) <= 5.0
  {
    var xs := before + [stars as real];
    forall i | 0 <= i < |xs| ensures 1.0 <= xs[i] <= 5.0 {
      if i < |before| { assert xs[i] == before[i]; }
    }
    MeanBounds(xs, 1.0, 5.0);
  }

  /** Submitting the same rating again is refused, whatever the role. */
  lemma SecondRatingRefused(st: Store, caller: Caller, issueId: string, recipientId: string, recipientRole: string,
                            stars: int, comment: string, now: Time, stars2: int, comment2: string, now2: Time)
    requires 1 <= stars <= 5 && !AlreadyRated(st.ratings, issueId, caller.id, recipientId)
    ensures var r := SubmitRating(st, caller, issueId, recipientId, recipientRole, stars, comment, now);
      SubmitRating(r.store, caller, issueId, recipientId, recipientRole, stars2, comment2, now2) == Refuse(r.store, 400)
  {
    var r := SubmitRating(st, caller, issueId, recipientId, recipientRole, stars, comment, now);
    assert r.store.ratings[|st.ratings|].recipientId == recipientId;
  }
}
