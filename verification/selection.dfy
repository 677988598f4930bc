/** Candidate selection (`match_best_expert`), the region balancer
    (`get_best_region`) and the one-shot background retry
    (`retry_assignment`) of app/services/utils.py. */
module Selection {
  import opened Common
  import opened Records
  import opened Scoring

  /** One expert document of a candidate pool, with its `expert_id`. */
  datatype Candidate = Candidate(id: string, expert: Expert)

  /** The `experts_collection.find` filters the handlers build a pool with. */
  datatype ExpertFilter =
      /** region, `is_verified` and `is_available` (user.py:37-41, 49-53) */
    | AvailableVerifiedIn(region: string)
      /** `is_available`, `is_verified`, id not excluded (utils.py:149-153, user.py:189-193) */
    | AvailableVerifiedExcept(excluded: set<string>)
      /** `is_verified`, string field `availability == "available"`, id not excluded (expert.py:333-337) */
    | MarkedAvailableVerifiedExcept(excluded: set<string>)

  predicate Admits(f: ExpertFilter, id: string, e: Expert) {
    match f
    case AvailableVerifiedIn(region) => e.region == region && e.isVerified && e.isAvailable
    case AvailableVerifiedExcept(ex) => e.isAvailable && e.isVerified && id !in ex
    case MarkedAvailableVerifiedExcept(ex) => e.isVerified && e.availability == Some("available") && id !in ex
  }

  /** What the escalation and retry filter demands of an admitted expert. */
  lemma AdmitsExcept(excluded: set<string>, id: string, e: Expert)
    requires Admits(AvailableVerifiedExcept(excluded), id, e)
    ensures e.isAvailable && e.isVerified && id !in excluded
  {
  }

  /** No filter looks at an expert's load. */
  lemma AdmitsIgnoresLoad(f: ExpertFilter, id: string, e: Expert, n: int)
    ensures Admits(f, id, e) <==> Admits(f, id, e.(activeIssues := n))
  {
  }

  function PoolFrom(docs: map<string, Expert>, order: seq<string>, f: ExpertFilter): (r: seq<Candidate>)
    ensures |r| <= |order|
    ensures forall k :: 0 <= k < |r| ==>
      r[k].id in order && r[k].id in docs && docs[r[k].id] == r[k].expert && Admits(f, r[k].id, r[k].expert)
    ensures forall id :: id in order && id in docs && Admits(f, id, docs[id]) ==>
      Candidate(id, docs[id]) in r
  {
    if order == [] then []
    else
      var id := order[0];
      var rest := PoolFrom(docs, order[1..], f);
      if id in docs && Admits(f, id, docs[id]) then [Candidate(id, docs[id])] + rest else rest
  }

  /** `list(experts_collection.find(filter))`, in collection order: every
      member is a stored expert the filter admits, and every listed stored
      expert the filter admits is a member. */
  function Pool(experts: Coll<Expert>, f: ExpertFilter): (r: seq<Candidate>)
    ensures r == [] <==> NoneAdmitted(experts, f)
    ensures forall k :: 0 <= k < |r| ==>
      r[k].id in experts.docs && experts.docs[r[k].id] == r[k].expert && Admits(f, r[k].id, r[k].expert)
    ensures forall id :: id in experts.order && id in experts.docs && Admits(f, id, experts.docs[id]) ==>
      Candidate(id, experts.docs[id]) in r
  {
    var r := PoolFrom(experts.docs, experts.order, f);
    assert r != [] ==> !NoneAdmitted(experts, f) by {
      if r != [] {
        assert r[0].id in experts.order && r[0].id in experts.docs;
      }
    }
    r
  }

  /** No listed expert passes the filter. */
  ghost predicate NoneAdmitted(experts: Coll<Expert>, f: ExpertFilter) {
    forall id :: id in experts.order && id in experts.docs ==> !Admits(f, id, experts.docs[id])
  }

  /** `[e for e in experts if e.get("region") == issue_region]` (utils.py:63). */
  function Regional(cands: seq<Candidate>, region: string): (r: seq<Candidate>)
    ensures |r| <= |cands|
    ensures forall k :: 0 <= k < |r| ==> r[k] in cands && r[k].expert.region == region
    ensures forall c :: c in cands && c.expert.region == region ==> c in r
  {
    if cands == [] then []
    else (if cands[0].expert.region == region then [cands[0]] else []) + Regional(cands[1..], region)
  }

  /** The scores of a candidate list, in list order. */
  function Scores(text: string, cands: seq<Candidate>, w: Weights, cos: Cosine): (r: seq<real>)
    ensures |r| == |cands|
  {
    if cands == [] then [] else [Score(text, cands[0].expert, w, cos)] + Scores(text, cands[1..], w, cos)
  }

  lemma {:induction false} ScoresAt(text: string, cands: seq<Candidate>, w: Weights, cos: Cosine, k: nat)
    requires k < |cands|
    ensures Scores(text, cands, w, cos)[k] == Score(text, cands[k].expert, w, cos)
    decreases k
  {
    if k > 0 {
      ScoresAt(text, cands[1..], w, cos, k - 1);
    }
  }

  /** `best_expert_id` (as a position) and `highest_score`. */
  datatype Lead = Lead(index: Option<nat>, score: real)

  /** One `score_experts` loop (utils.py:67-99) from position `i` on: a
      candidate takes the lead only with a strictly greater score. */
  function Pass(scores: seq<real>, i: nat, acc: Lead): (r: Lead)
    requires i <= |scores|
    ensures r == acc || (r.index.Some? && i <= r.index.value < |scores|)
    decreases |scores| - i
  {
    if i == |scores| then acc
    else Pass(scores, i + 1, if scores[i] > acc.score then Lead(Some(i), scores[i]) else acc)
  }

  /** Some score beats the initial best of -1. */
  ghost predicate Beats(scores: seq<real>) {
    exists j :: 0 <= j < |scores| && scores[j] > -1.0
  }

  /** Position `k` is the decision of a pass that started from -1: it beats
      -1, no score exceeds it, and every earlier score is strictly smaller
      (exact ties go to the earliest candidate). */
  ghost predicate Wins(scores: seq<real>, k: nat) {
    && k < |scores|
    && scores[k] > -1.0
    && (forall j :: 0 <= j < |scores| ==> scores[j] <= scores[k])
    && (forall j :: 0 <= j < k ==> scores[j] < scores[k])
  }

  /** What one pass computes, for any starting lead. */
  lemma {:induction false} PassLeads(scores: seq<real>, i: nat, acc: Lead)
    requires i <= |scores|
    ensures var r := Pass(scores, i, acc);
      && r.score >= acc.score
      && (forall j :: i <= j < |scores| ==> scores[j] <= r.score)
      && (r == acc
          || (&& r.index.Some? && i <= r.index.value < |scores|
              && r.score == scores[r.index.value] && r.score > acc.score
              && forall j :: i <= j < r.index.value ==> scores[j] < r.score))
    decreases |scores| - i
  {
    if i < |scores| {
      var next := if scores[i] > acc.score then Lead(Some(i), scores[i]) else acc;
      PassLeads(scores, i + 1, next);
    }
  }

  /** A pass from the initial lead (`None`, -1) finds nobody exactly when no
      score exceeds -1, and otherwise finds the winning position. */
  lemma PassFromFloor(scores: seq<real>)
    ensures Pass(scores, 0, Lead(None, -1.0)).index.None?
        <==> forall j :: 0 <= j < |scores| ==> scores[j] <= -1.0
    ensures Pass(scores, 0, Lead(None, -1.0)).index.Some? ==>
      Wins(scores, Pass(scores, 0, Lead(None, -1.0)).index.value)
  {
    PassLeads(scores, 0, Lead(None, -1.0));
  }

  /** Which candidate the two passes pick, by position: in the regional
      list, in the whole pool, or nobody. */
  datatype Choice = Nobody | RegionalAt(k: nat) | AnyAt(k: nat)

  /** The two passes of `match_best_expert` over the regional scores `rs`
      and the whole pool's scores `all`: the second pass runs only when the
      first chose nobody, and it continues from the first pass's lead. */
  function Decide(rs: seq<real>, all: seq<real>, allowCross: bool): (c: Choice)
    ensures c.RegionalAt? ==> c.k < |rs|
    ensures c.AnyAt? ==> c.k < |all|
  {
    var first := Pass(rs, 0, Lead(None, -1.0));
    if allowCross && first.index.None? then
      var second := Pass(all, 0, first);
      if second.index.Some? then AnyAt(second.index.value) else Nobody
    else if first.index.Some? then RegionalAt(first.index.value)
    else Nobody
  }

  /** The decision against an independent statement: if some regional
      score beats -1 the regional winner is chosen (the cross-region pass
      does not run); otherwise, with cross-region allowed, the winner of the
      whole pool, or nobody when no score beats -1; with cross-region
      disallowed, nobody. */
  lemma DecideSpec(rs: seq<real>, all: seq<real>, allowCross: bool)
    ensures Beats(rs) ==> Decide(rs, all, allowCross).RegionalAt? && Wins(rs, Decide(rs, all, allowCross).k)
    ensures !Beats(rs) && allowCross && Beats(all) ==>
      Decide(rs, all, allowCross).AnyAt? && Wins(all, Decide(rs, all, allowCross).k)
    ensures !Beats(rs) && (!allowCross || !Beats(all)) ==> Decide(rs, all, allowCross) == Nobody
  {
    PassFromFloor(rs);
    PassFromFloor(all);
  }

  /** `match_best_expert` (utils.py:53-109). */
  function MatchBest(issue: Issue, experts: seq<Candidate>, w: Weights, cos: Cosine, allowCross: bool)
    : (r: Option<string>)
    ensures experts == [] ==> r == None
    ensures r.Some? ==> exists k :: 0 <= k < |experts| && experts[k].id == r.value
  {
    var text := IssueText(issue);
    var regional := Regional(experts, issue.region);
    match Decide(Scores(text, regional, w, cos), Scores(text, experts, w, cos), allowCross)
    case Nobody => None
    case RegionalAt(k) => Some(regional[k].id)
    case AnyAt(k) => Some(experts[k].id)
  }

  /** The decision of `match_best_expert`: a regional winner whenever some
      regional candidate beats -1; otherwise, with cross-region allowed, the
      winner of the whole pool; nobody when no considered candidate beats -1. */
  lemma MatchBestChoice(issue: Issue, experts: seq<Candidate>, w: Weights, cos: Cosine, allowCross: bool)
    ensures var rs := Scores(IssueText(issue), Regional(experts, issue.region), w, cos);
      var all := Scores(IssueText(issue), experts, w, cos);
      var r := MatchBest(issue, experts, w, cos, allowCross);
      && (Beats(rs) ==> exists k: nat :: Wins(rs, k) && r == Some(Regional(experts, issue.region)[k].id))
      && (!Beats(rs) && allowCross && Beats(all) ==> exists k: nat :: Wins(all, k) && r == Some(experts[k].id))
      && (!Beats(rs) && (!allowCross || !Beats(all)) ==> r == None)
  {
    var regional := Regional(experts, issue.region);
    var rs := Scores(IssueText(issue), regional, w, cos);
    var all := Scores(IssueText(issue), experts, w, cos);
    var r := MatchBest(issue, experts, w, cos, allowCross);
    MatchBestDecides(issue, experts, w, cos, allowCross, rs, all);
    var c := Decide(rs, all, allowCross);
    if Beats(rs) {
      assert Wins(rs, c.k) && r == Some(regional[c.k].id);
    } else if allowCross && Beats(all) {
      assert Wins(all, c.k) && r == Some(experts[c.k].id);
    }
  }

  /** `MatchBest` in each case of `DecideSpec`. */
  lemma MatchBestDecides(issue: Issue, experts: seq<Candidate>, w: Weights, cos: Cosine, allowCross: bool,
                         rs: seq<real>, all: seq<real>)
    requires rs == Scores(IssueText(issue), Regional(experts, issue.region), w, cos)
    requires all == Scores(IssueText(issue), experts, w, cos)
    ensures var c := Decide(rs, all, allowCross);
      Beats(rs) ==>
        && c.RegionalAt? && Wins(rs, c.k)
        && MatchBest(issue, experts, w, cos, allowCross) == Some(Regional(experts, issue.region)[c.k].id)
    ensures var c := Decide(rs, all, allowCross);
      !Beats(rs) && allowCross && Beats(all) ==>
        && c.AnyAt? && Wins(all, c.k)
        && MatchBest(issue, experts, w, cos, allowCross) == Some(experts[c.k].id)
    ensures !Beats(rs) && (!allowCross || !Beats(all)) ==>
      Decide(rs, all, allowCross) == Nobody && MatchBest(issue, experts, w, cos, allowCross) == None
  {
    DecideSpec(rs, all, allowCross);
  }

  /** With the default weights, a bounded cosine and non-negative trust
      scores, a pool with any expert in the issue's region always yields a
      regional expert. */
  lemma RegionalPreferred(issue: Issue, experts: seq<Candidate>, cos: Cosine)
    requires CosineBounded(cos)
    requires forall k :: 0 <= k < |experts| ==> experts[k].expert.trustScore >= 0.0
    requires exists k :: 0 <= k < |experts| && experts[k].expert.region == issue.region
    ensures var r := MatchBest(issue, experts, DefaultWeights, cos, true);
      r.Some? && exists k :: 0 <= k < |experts| && experts[k].id == r.value
                          && experts[k].expert.region == issue.region
  {
    var text := IssueText(issue);
    var regional := Regional(experts, issue.region);
    var rs := Scores(text, regional, DefaultWeights, cos);
    var all := Scores(text, experts, DefaultWeights, cos);
    var k0 :| 0 <= k0 < |experts| && experts[k0].expert.region == issue.region;
    assert experts[k0] in regional;
    var j :| 0 <= j < |regional| && regional[j] == experts[k0];
    ScoreAboveFloor(text, experts[k0].expert, cos);
    ScoresAt(text, regional, DefaultWeights, cos, j);
    assert rs[j] > -1.0;
    assert Beats(rs);
    MatchBestDecides(issue, experts, DefaultWeights, cos, true, rs, all);
    var k := Decide(rs, all, true).k;
    assert MatchBest(issue, experts, DefaultWeights, cos, true) == Some(regional[k].id);
    assert regional[k] in experts && regional[k].expert.region == issue.region;
    var i :| 0 <= i < |experts| && experts[i] == regional[k];
  }

  /** With the default weights, a bounded cosine and non-negative trust
      scores, a non-empty pool always yields someone (cross-region allowed). */
  lemma MatchBestNonEmpty(issue: Issue, experts: seq<Candidate>, cos: Cosine)
    requires CosineBounded(cos)
    requires forall k :: 0 <= k < |experts| ==> experts[k].expert.trustScore >= 0.0
    requires experts != []
    ensures MatchBest(issue, experts, DefaultWeights, cos, true).Some?
  {
    var text := IssueText(issue);
    var rs := Scores(text, Regional(experts, issue.region), DefaultWeights, cos);
    var all := Scores(text, experts, DefaultWeights, cos);
    ScoreAboveFloor(text, experts[0].expert, cos);
    ScoresAt(text, experts, DefaultWeights, cos, 0);
    assert all[0] > -1.0;
    assert Beats(all);
    MatchBestDecides(issue, experts, DefaultWeights, cos, true, rs, all);
  }

  // ---------------------------------------------------------------------
  // get_best_region (utils.py:114-139)
  // ---------------------------------------------------------------------

  const Regions: seq<string> := ["north", "south", "east", "west"]

  /** Verified experts of the region whose string field says "available"
      (utils.py:120-124). */
  function AvailableExpertCount(st: Store, region: string): nat {
    |set id | id in st.experts.docs && st.experts.docs[id].region == region
              && st.experts.docs[id].isVerified && st.experts.docs[id].availability == Some("available")|
  }

  predicate IsOpen(s: Status) {
    s == Pending || s == Assigned || s == InProgress
  }

  /** Issues of the region in pending, assigned or in-progress status
      (utils.py:126-129). */
  function OpenIssueCount(st: Store, region: string): nat {
    |set id | id in st.issues.docs && st.issues.docs[id].region == region && IsOpen(st.issues.docs[id].status)|
  }

  /** `2.0 * experts - 1.0 * issues`, exact on integers. */
  function RegionScore(st: Store, region: string): int {
    2 * AvailableExpertCount(st, region) - OpenIssueCount(st, region)
  }

  function RegionScores(st: Store): (r: seq<int>)
    ensures |r| == |Regions|
    ensures forall k :: 0 <= k < |Regions| ==> r[k] == RegionScore(st, Regions[k])
  {
    seq(|Regions|, k requires 0 <= k < |Regions| => RegionScore(st, Regions[k]))
  }

  /** The loop of `get_best_region` from position `i`: `best` is `None`
      while the best score is still minus infinity. */
  function FirstMax(xs: seq<int>, i: nat, best: Option<nat>): (r: Option<nat>)
    requires i <= |xs|
    requires best.Some? ==> best.value < |xs|
    ensures r.Some? ==> r.value < |xs|
    ensures i < |xs| ==> r.Some?
    decreases |xs| - i
  {
    if i == |xs| then best
    else FirstMax(xs, i + 1, if best.None? || xs[i] > xs[best.value] then Some(i) else best)
  }

  lemma {:induction false} FirstMaxSpec(xs: seq<int>, i: nat, best: Option<nat>)
    requires i <= |xs|
    requires best.None? <==> i == 0
    requires best.Some? ==> best.value < i
    requires best.Some? ==> forall j :: 0 <= j < i ==> xs[j] <= xs[best.value]
    requires best.Some? ==> forall j :: 0 <= j < best.value ==> xs[j] < xs[best.value]
    ensures var r := FirstMax(xs, i, best);
      |xs| > 0 ==>
        && r.Some?
        && (forall j :: 0 <= j < |xs| ==> xs[j] <= xs[r.value])
        && (forall j :: 0 <= j < r.value ==> xs[j] < xs[r.value])
    decreases |xs| - i
  {
    if i < |xs| {
      var next := if best.None? || xs[i] > xs[best.value] then Some(i) else best;
      FirstMaxSpec(xs, i + 1, next);
    }
  }

  /** `get_best_region`: always one of the four regions. */
  function BestRegion(st: Store): (r: string)
    ensures r in Regions
  {
    Regions[FirstMax(RegionScores(st), 0, None).value]
  }

  /** The chosen region maximises `2 * experts - issues`, and every region
      listed before it scores strictly less. */
  lemma BestRegionMaximal(st: Store)
    ensures exists k :: 0 <= k < |Regions| && BestRegion(st) == Regions[k]
              && (forall j :: 0 <= j < |Regions| ==> RegionScore(st, Regions[j]) <= RegionScore(st, Regions[k]))
              && (forall j :: 0 <= j < k ==> RegionScore(st, Regions[j]) < RegionScore(st, Regions[k]))
  {
    var xs := RegionScores(st);
    FirstMaxSpec(xs, 0, None);
    var k := FirstMax(xs, 0, None).value;
    assert BestRegion(st) == Regions[k];
  }

  // ---------------------------------------------------------------------
  // retry_assignment (utils.py:141-165), the 30 s sleep left out
  // ---------------------------------------------------------------------

  /** The pool `f` admits has at least one expert. */
  predicate Staffed(experts: Coll<Expert>, f: ExpertFilter)
    ensures Staffed(experts, f) <==> !NoneAdmitted(experts, f)
  {
    Pool(experts, f) != []
  }

  /** The id `match_best_expert` picks, with the default weights and
      cross-region matching, from the pool `f` admits, kept only when it is
      truthy (the handlers' `if best_expert_id:`). */
  function Pick(experts: Coll<Expert>, f: ExpertFilter, issue: Issue, cos: Cosine): (r: Option<string>)
    ensures r.Some? ==> r.value != "" && r.value in experts.docs && Admits(f, r.value, experts.docs[r.value])
    ensures r.None? <==> !Present(MatchBest(issue, Pool(experts, f), DefaultWeights, cos, true))
    ensures r.Some? ==> r == MatchBest(issue, Pool(experts, f), DefaultWeights, cos, true)
  {
    var found := MatchBest(issue, Pool(experts, f), DefaultWeights, cos, true);
    if Present(found) then found else None
  }

  /** A staffed regional pool always yields a truthy pick for an issue of
      that region, given non-empty ids, non-negative trust scores and a
      bounded cosine. */
  lemma PickFromStaffedRegion(experts: Coll<Expert>, issue: Issue, cos: Cosine)
    requires CosineBounded(cos)
    requires forall id :: id in experts.docs ==> experts.docs[id].trustScore >= 0.0 && id != ""
    requires Staffed(experts, AvailableVerifiedIn(issue.region))
    ensures Pick(experts, AvailableVerifiedIn(issue.region), issue, cos).Some?
  {
    var pool := Pool(experts, AvailableVerifiedIn(issue.region));
    assert pool[0].expert.region == issue.region;
    forall k | 0 <= k < |pool| ensures pool[k].expert.trustScore >= 0.0 {
      assert pool[k].id in experts.docs;
    }
    RegionalPreferred(issue, pool, cos);
    var m := MatchBest(issue, pool, DefaultWeights, cos, true);
    var k :| 0 <= k < |pool| && pool[k].id == m.value && pool[k].expert.region == issue.region;
    assert m.value in experts.docs;
  }

  /** One background re-attempt: nothing unless the issue still exists and
      is unassigned; then the pool of available verified experts outside
      `rejected_by`; on a match, assign, count +1 and notify both parties. */
  function RetryAssignment(st: Store, issueId: string, cos: Cosine): (r: Step<()>)
    ensures r.retries == [] && r.outcome == Ok(())
    ensures issueId !in st.issues.docs || Present(st.issues.docs[issueId].assignedExpert) ==>
      r.store == st && r.events == []
    ensures r.store == st || r.events == []
      || (&& issueId in st.issues.docs && issueId in r.store.issues.docs
          && var before := st.issues.docs[issueId];
             var x := r.store.issues.docs[issueId].assignedExpert;
          && Present(x)
          && x.value !in before.rejectedBy
          && x.value in st.experts.docs
          && st.experts.docs[x.value].isAvailable && st.experts.docs[x.value].isVerified
          && r.store.issues == Put(st.issues, issueId, before.(assignedExpert := x, status := Assigned))
          && LoadsMoved(st.experts, r.store.experts, map[x.value := 1])
          && r.store == st.(issues := r.store.issues, experts := r.store.experts)
          && x == MatchBest(before, Pool(st.experts, AvailableVerifiedExcept(before.rejectedBy)), DefaultWeights, cos, true)
          && r.events == [Event(Some(before.submittedBy), IssueAssigned, About(issueId)),
                          Event(x, IssueAssigned, About(issueId))])
    ensures r.store == st <==> r.events == []
    ensures issueId in st.issues.docs && !Present(st.issues.docs[issueId].assignedExpert) ==>
      (r.store == st <==> Pick(st.experts, AvailableVerifiedExcept(st.issues.docs[issueId].rejectedBy),
                               st.issues.docs[issueId], cos).None?)
  {
    if issueId !in st.issues.docs || Present(st.issues.docs[issueId].assignedExpert) then
      Step(st, [], [], Ok(()))
    else
      var issue := st.issues.docs[issueId];
      var found := Pick(st.experts, AvailableVerifiedExcept(issue.rejectedBy), issue, cos);
      if found.None? then Step(st, [], [], Ok(()))
      else
        Step(AssignIn(st, issueId, found.value),
             [Event(Some(issue.submittedBy), IssueAssigned, About(issueId)),
              Event(found, IssueAssigned, About(issueId))],
             [], Ok(()))
  }
}
