/** The administrator's routes of app/routes/admin.py: the fixed-credential
    login, verification with tags, per-region statistics, the grouping of
    issues by region and the list of issues rerouted at least twice. */
module AdminRoutes {
  import opened Common
  import opened Text
  import opened Records
  import opened Scoring
  import opened Selection

  /** `admin_login` (admin.py:23-27): the token for exactly one credential
      pair; `payload.get` gives `None` for a missing key. */
  function AdminLogin(username: Option<string>, password: Option<string>): (r: Outcome<string>)
    ensures r.Ok? <==> username == Some("admin") && password == Some("admin123")
    ensures r.Ok? ==> r.value == "admin-token"
    ensures r.Fail? ==> r.code == 401
  {
    if username == Some("admin") && password == Some("admin123") then Ok("admin-token") else Fail(401)
  }

  datatype VerifyReply = AlreadyVerified | VerifiedAndTagged

  /** `verify_expert` with tags (admin.py:44-67): as in expert.py, and the
      tag list is replaced by the one given. */
  function VerifyExpertTagged(st: Store, caller: Caller, expertId: string, tags: seq<string>, notes: string)
    : (r: Step<VerifyReply>)
    ensures caller.role != "admin" ==> r == Refuse(st, 403)
    ensures caller.role == "admin" && expertId !in st.experts.docs ==> r == Refuse(st, 404)
    ensures caller.role == "admin" && expertId in st.experts.docs ==>
      && r.outcome.Ok? && r.events == [] && r.retries == []
      && (r.outcome.value == AlreadyVerified <==> st.experts.docs[expertId].isVerified)
      && (r.outcome.value == AlreadyVerified ==> r.store == st)
      && (r.outcome.value == VerifiedAndTagged ==>
            && r.store == st.(experts := r.store.experts)
            && r.store.experts.order == st.experts.order
            && r.store.experts.docs.Keys == st.experts.docs.Keys
            && (forall x :: x in st.experts.docs && x != expertId ==> r.store.experts.docs[x] == st.experts.docs[x])
            && var e := r.store.experts.docs[expertId];
            && e.isVerified && e.tags == TagList(tags)
            && e.verificationNotes == (if notes == "" then "Verified by admin" else notes)
            && e == st.experts.docs[expertId].(isVerified := true, tags := e.tags,
                                              verificationNotes := e.verificationNotes))
    ensures WfStore(st) ==> WfStore(r.store)
  {
    if caller.role != "admin" then Refuse(st, 403)
    else if expertId !in st.experts.docs then Refuse(st, 404)
    else if st.experts.docs[expertId].isVerified then Step(st, [], [], Ok(AlreadyVerified))
    else
      var e := st.experts.docs[expertId];
      Step(st.(experts := Put(st.experts, expertId,
                              e.(isVerified := true, tags := TagList(tags),
                                 verificationNotes := if notes == "" then "Verified by admin" else notes))),
           [], [], Ok(VerifiedAndTagged))
  }

  /** The tags an administrator sets are what the scorer matches against,
      lower-cased. */
  lemma TaggedVerificationFeedsScorer(st: Store, caller: Caller, expertId: string, tags: seq<string>, notes: string)
    requires caller.role == "admin" && expertId in st.experts.docs && !st.experts.docs[expertId].isVerified
    ensures var e := VerifyExpertTagged(st, caller, expertId, tags, notes).store.experts.docs[expertId];
      && |ScoringTags(e.tags)| == |tags|
      && forall i :: 0 <= i < |tags| ==> ScoringTags(e.tags)[i] == LowerStr(tags[i])
  {
  }

  /** One entry of `get_region_stats`. */
  datatype RegionStat = RegionStat(activeIssues: nat, availableExperts: nat)

  /** Verified experts of the region with the boolean `is_available` set
      (admin.py:83-87); the balancer counts the string field instead. */
  function FlaggedExpertCount(st: Store, region: string): nat {
    |set id | id in st.experts.docs && st.experts.docs[id].region == region
              && st.experts.docs[id].isAvailable && st.experts.docs[id].isVerified|
  }

  /** `get_region_stats` (admin.py:72-94); it has no role check. */
  function RegionStats(st: Store): (r: map<string, RegionStat>)
    ensures r.Keys == set g | g in Regions
    ensures forall g :: g in r ==> r[g].activeIssues == OpenIssueCount(st, g)
    ensures forall g :: g in r ==> r[g].availableExperts == FlaggedExpertCount(st, g)
  {
    map g | g in Regions :: RegionStat(OpenIssueCount(st, g), FlaggedExpertCount(st, g))
  }

  /** The statistics page and the balancer read different availability
      fields: an available verified expert that no string field marks is
      counted by one and not by the other. */
  lemma AvailabilityFieldsDiverge(st: Store, id: string)
    requires id in st.experts.docs
    requires st.experts.docs[id].region == "south" && st.experts.docs[id].isVerified
    requires st.experts.docs[id].isAvailable && st.experts.docs[id].availability == None
    requires forall x :: x in st.experts.docs && x != id ==> st.experts.docs[x].region != "south"
    ensures RegionStats(st)["south"].availableExperts == 1
    ensures AvailableExpertCount(st, "south") == 0
  {
    var flagged := set x | x in st.experts.docs && st.experts.docs[x].region == "south"
                           && st.experts.docs[x].isAvailable && st.experts.docs[x].isVerified;
    assert flagged == {id};
    var marked := set x | x in st.experts.docs && st.experts.docs[x].region == "south"
                          && st.experts.docs[x].isVerified && st.experts.docs[x].availability == Some("available");
    assert marked == {};
  }

  /** In every region the two counts differ by exactly the verified experts
      whose fields disagree: those flagged available by `is_available` only
      are counted by the statistics page alone, those marked "available" by
      the string field only are counted by the balancer alone. */
  lemma AvailabilityCountsDiffer(st: Store, g: string)
    ensures var flaggedOnly := set id | id in st.experts.docs && st.experts.docs[id].region == g
                                         && st.experts.docs[id].isVerified && st.experts.docs[id].isAvailable
                                         && st.experts.docs[id].availability != Some("available");
            var markedOnly := set id | id in st.experts.docs && st.experts.docs[id].region == g
                                        && st.experts.docs[id].isVerified && !st.experts.docs[id].isAvailable
                                        && st.experts.docs[id].availability == Some("available");
      FlaggedExpertCount(st, g) + |markedOnly| == AvailableExpertCount(st, g) + |flaggedOnly|
  {
    var docs := st.experts.docs;
    var flagged := set id | id in docs && docs[id].region == g && docs[id].isAvailable && docs[id].isVerified;
    var marked := set id | id in docs && docs[id].region == g && docs[id].isVerified
                           && docs[id].availability == Some("available");
    CardinalityBalance(flagged, marked);
    assert flagged - marked == set id | id in docs && docs[id].region == g && docs[id].isVerified
                                        && docs[id].isAvailable && docs[id].availability != Some("available");
    assert marked - flagged == set id | id in docs && docs[id].region == g && docs[id].isVerified
                                        && !docs[id].isAvailable && docs[id].availability == Some("available");
  }

  /** Two finite sets differ in size by the sizes of their differences. */
  lemma CardinalityBalance<T>(a: set<T>, b: set<T>)
    ensures |a| + |b - a| == |b| + |a - b|
  {
    var both := a * b;
    assert a == both + (a - b) && both * (a - b) == {};
    assert b == both + (b - a) && both * (b - a) == {};
  }

  /** Hence the statistics page and the balancer agree on a region exactly
      when as many of its verified experts are flagged only as are marked
      only; in particular when the two fields agree on every one of them. */
  lemma AvailabilityFieldsAgree(st: Store, g: string)
    requires g in Regions
    requires forall id :: id in st.experts.docs && st.experts.docs[id].region == g && st.experts.docs[id].isVerified ==>
      (st.experts.docs[id].isAvailable <==> st.experts.docs[id].availability == Some("available"))
    ensures RegionStats(st)[g].availableExperts == AvailableExpertCount(st, g)
  {
    AvailabilityCountsDiffer(st, g);
    var docs := st.experts.docs;
    assert (set id | id in docs && docs[id].region == g && docs[id].isVerified && docs[id].isAvailable
                     && docs[id].availability != Some("available")) == {};
    assert (set id | id in docs && docs[id].region == g && docs[id].isVerified && !docs[id].isAvailable
                     && docs[id].availability == Some("available")) == {};
  }

  /** The ids of `ids` whose issue lies in `region`, in order. */
  function InRegion(docs: map<string, Issue>, ids: seq<string>, region: string): (r: seq<string>)
    requires forall i :: 0 <= i < |ids| ==> ids[i] in docs
    ensures forall id :: id in r <==> id in ids && docs[id].region == region
    decreases |ids|
  {
    if ids == [] then []
    else
      var rest := InRegion(docs, ids[..|ids| - 1], region);
      var id := ids[|ids| - 1];
      assert forall x :: x in ids <==> x in ids[..|ids| - 1] || x == id;
      if docs[id].region == region then rest + [id] else rest
  }

  /** The loop of `get_issues_by_region` (admin.py:104-111) over `ids`:
      the four standard keys, then `setdefault(region, []).append(issue)`. */
  function Group(docs: map<string, Issue>, ids: seq<string>): (r: map<string, seq<string>>)
    requires forall i :: 0 <= i < |ids| ==> ids[i] in docs
    ensures forall g :: g in r <==> g in Regions || InRegion(docs, ids, g) != []
    ensures forall g :: g in r ==> r[g] == InRegion(docs, ids, g)
    decreases |ids|
  {
    if ids == [] then map g | g in Regions :: []
    else
      var g := Group(docs, ids[..|ids| - 1]);
      var region := docs[ids[|ids| - 1]].region;
      GroupStep(docs, ids, g);
      g[region := (if region in g then g[region] else []) + [ids[|ids| - 1]]]
  }

  /** Appending the last id to its region's group turns the grouping of the
      other ids into the grouping of all of them. */
  lemma GroupStep(docs: map<string, Issue>, ids: seq<string>, g: map<string, seq<string>>)
    requires ids != [] && forall i :: 0 <= i < |ids| ==> ids[i] in docs
    requires forall x :: x in g <==> x in Regions || InRegion(docs, ids[..|ids| - 1], x) != []
    requires forall x :: x in g ==> g[x] == InRegion(docs, ids[..|ids| - 1], x)
    ensures var region := docs[ids[|ids| - 1]].region;
      var r := g[region := (if region in g then g[region] else []) + [ids[|ids| - 1]]];
      && (forall x :: x in r <==> x in Regions || InRegion(docs, ids, x) != [])
      && (forall x :: x in r ==> r[x] == InRegion(docs, ids, x))
  {
    var prefix := ids[..|ids| - 1];
    var last := ids[|ids| - 1];
    var region := docs[last].region;
    var r := g[region := (if region in g then g[region] else []) + [last]];
    forall x
      ensures (x in r <==> x in Regions || InRegion(docs, ids, x) != [])
      ensures x in r ==> r[x] == InRegion(docs, ids, x)
    {
      if x == region {
        assert InRegion(docs, ids, x) == InRegion(docs, prefix, x) + [last];
      } else {
        assert InRegion(docs, ids, x) == InRegion(docs, prefix, x);
      }
    }
  }

  /** `get_issues_by_region` (admin.py:99-113): admins only; every stored
      issue is listed once, in the group of its own region, in collection
      order, and the four standard regions always have a group. */
  function IssuesByRegion(st: Store, caller: Caller): (r: Outcome<map<string, seq<string>>>)
    ensures caller.role != "admin" <==> r == Fail(403)
    ensures r.Ok? ==>
      && (forall g :: g in Regions ==> g in r.value)
      && (forall g, id :: g in r.value ==>
            (id in r.value[g] <==> (id in Listed(st.issues.docs, st.issues.order) && st.issues.docs[id].region == g)))
      && (forall id :: id in Listed(st.issues.docs, st.issues.order) ==> st.issues.docs[id].region in r.value)
  {
    if caller.role != "admin" then Fail(403)
    else
      var ids := Listed(st.issues.docs, st.issues.order);
      var r := Group(st.issues.docs, ids);
      assert forall id :: id in ids ==> st.issues.docs[id].region in r by {
        forall id | id in ids ensures st.issues.docs[id].region in r {
          var i :| 0 <= i < |ids| && ids[i] == id;
        }
      }
      Ok(r)
  }

  /** The ids of `ids` whose issue was reassigned at least twice, in order. */
  function Rerouted(docs: map<string, Issue>, ids: seq<string>): (r: seq<string>)
    requires forall i :: 0 <= i < |ids| ==> ids[i] in docs
    ensures forall id :: id in r <==> id in ids && |docs[id].reassignmentLog| >= 2
    ensures |r| <= |ids|
  {
    if ids == [] then []
    else (if |docs[ids[0]].reassignmentLog| >= 2 then [ids[0]] else []) + Rerouted(docs, ids[1..])
  }

  /** `get_rerouted_issues` (admin.py:115-131): admins only; the issues
      whose `reassignment_log` has a second entry. */
  function ReroutedIssues(st: Store, caller: Caller): (r: Outcome<seq<string>>)
    ensures caller.role != "admin" <==> r == Fail(403)
    ensures r.Ok? ==> forall id :: id in r.value <==>
      (id in st.issues.docs && id in st.issues.order && |st.issues.docs[id].reassignmentLog| >= 2)
  {
    if caller.role != "admin" then Fail(403)
    else
      var ids := Listed(st.issues.docs, st.issues.order);
      assert forall i :: 0 <= i < |ids| ==> ids[i] in st.issues.docs by {
        forall i | 0 <= i < |ids| ensures ids[i] in st.issues.docs {
          assert ids[i] in ids;
        }
      }
      Ok(Rerouted(st.issues.docs, ids))
  }
}
