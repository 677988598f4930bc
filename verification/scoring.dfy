/** The five-factor fitness score of one expert for one issue
    (app/services/utils.py:19-25, 32-51, 68-88). */
module Scoring {
  import opened Common
  import opened Text
  import opened Records

  /** Weights of the five sub-scores. */
  datatype Weights = Weights(skill: real, availability: real, trust: real, inverseLoad: real, nlp: real)

  /** `DEFAULT_WEIGHTS`; every caller uses them. */
  const DefaultWeights: Weights := Weights(0.3, 0.2, 0.2, 0.1, 0.2)

  /** The sentence-embedding model followed by cosine similarity:
      `cos(issueText, joinedTags)`. It is an opaque parameter of the model. */
  type Cosine = (string, string) -> real

  ghost predicate CosineBounded(cos: Cosine) {
    forall a, b :: -1.0 <= cos(a, b) <= 1.0
  }

  /** `jaccard_similarity` (utils.py:35-38). */
  function Jaccard(a: set<string>, b: set<string>): (r: real)
    ensures a == {} || b == {} ==> r == 0.0
    ensures a != {} && b != {} ==> r * (|a + b| as real) == |a * b| as real
    ensures 0.0 <= r <= 1.0
  {
    if a == {} || b == {} then 0.0
    else
      SubsetCard(a * b, a + b);
      (|a * b| as real) / (|a + b| as real)
  }

  lemma {:induction false} SubsetCard(a: set<string>, b: set<string>)
    requires a <= b
    ensures |a| <= |b|
  {
    assert b == a + (b - a);
  }

  /** Jaccard similarity does not depend on the order of its arguments. */
  lemma JaccardSymmetric(a: set<string>, b: set<string>)
    ensures Jaccard(a, b) == Jaccard(b, a)
  {
    assert a * b == b * a;
    assert a + b == b + a;
  }

  /** A non-empty set is fully similar to itself. */
  lemma JaccardSelf(a: set<string>)
    requires a != {}
    ensures Jaccard(a, a) == 1.0
  {
    assert a * a == a;
    assert a + a == a;
  }

  /** The keyword set of an issue text: words of the cleaned text. */
  function Keywords(text: string): set<string> {
    set w | w in Words(CleanText(text))
  }

  /** `compute_skill_match` (utils.py:40-43). */
  function SkillMatch(text: string, tags: seq<string>): (r: real)
    ensures 0.0 <= r <= 1.0
    ensures tags == [] ==> r == 0.0
  {
    Jaccard(Keywords(text), set k | 0 <= k < |tags| :: LowerStr(tags[k]))
  }

  /** `compute_nlp_similarity` (utils.py:45-51): zero without tags, otherwise
      the embedding cosine of the text and the space-joined tags. */
  function NlpSimilarity(text: string, tags: seq<string>, cos: Cosine): (r: real)
    ensures tags == [] ==> r == 0.0
    ensures CosineBounded(cos) ==> -1.0 <= r <= 1.0
  {
    if tags == [] then 0.0 else cos(text, Join(tags, ' '))
  }

  /** The tag list the scorer works with (utils.py:72-76): a string is split
      on commas and each piece stripped and lower-cased; a list is
      lower-cased element-wise. */
  function ScoringTags(t: Tags): (r: seq<string>)
    ensures t.TagList? ==> |r| == |t.items|
    ensures t.TagText? ==> |r| == Count(t.text, ',') + 1
    ensures t.TagList? ==> forall i :: 0 <= i < |r| ==> r[i] == LowerStr(t.items[i])
    ensures t.TagText? ==> forall i :: 0 <= i < |r| ==> r[i] == LowerStr(Trim(SplitOn(t.text, ',')[i]))
  {
    match t
    case TagList(items) => seq(|items|, i requires 0 <= i < |items| => LowerStr(items[i]))
    case TagText(s) =>
      var pieces := SplitOn(s, ',');
      seq(|pieces|, i requires 0 <= i < |pieces| => LowerStr(Trim(pieces[i])))
  }

  /** `max(0, active_issues)`. */
  function ClampLoad(active: int): nat {
    if active < 0 then 0 else active
  }

  /** The inverse-load term (utils.py:69-70). */
  function InverseLoad(active: int): (r: real)
    ensures 0.0 < r <= 1.0
    ensures active <= 0 ==> r == 1.0
    ensures r * ((ClampLoad(active) + 1) as real) == 1.0
  {
    1.0 / ((ClampLoad(active) + 1) as real)
  }

  /** More active issues never raise the inverse-load term. */
  lemma InverseLoadAntitone(a: int, b: int)
    requires a <= b
    ensures InverseLoad(b) <= InverseLoad(a)
  {
    ReciprocalAntitone(InverseLoad(a), InverseLoad(b), (ClampLoad(a) + 1) as real, (ClampLoad(b) + 1) as real);
  }

  /** Of two positive reals, the larger has the smaller reciprocal. */
  lemma ReciprocalAntitone(p: real, q: real, x: real, y: real)
    requires 1.0 <= x <= y && p * x == 1.0 && q * y == 1.0 && q > 0.0
    ensures q <= p
  {
    assert q * x <= q * y;
    assert q * x <= p * x;
  }

  /** The availability term reads the string field, never `is_available`
      (utils.py:78). */
  function AvailabilityTerm(e: Expert): real {
    if e.availability == Some("available") then 1.0 else 0.0
  }

  /** `issue["title"] + " " + issue["description"]` (utils.py:60). */
  function IssueText(issue: Issue): string {
    issue.title + " " + issue.description
  }

  /** The five sub-scores of one expert, each computed independently. */
  datatype Terms = Terms(skill: real, availability: real, trust: real, inverseLoad: real, nlp: real)

  /** The sub-scores (utils.py:68-80). The trust term is the stored score as is. */
  function ScoreTerms(text: string, e: Expert, cos: Cosine): (t: Terms)
    ensures 0.0 <= t.skill <= 1.0
    ensures t.availability == 1.0 <==> e.availability == Some("available")
    ensures t.availability == 0.0 <==> e.availability != Some("available")
    ensures t.trust == e.trustScore
    ensures 0.0 < t.inverseLoad <= 1.0
    ensures CosineBounded(cos) ==> -1.0 <= t.nlp <= 1.0
  {
    var tags := ScoringTags(e.tags);
    Terms(SkillMatch(text, tags), AvailabilityTerm(e), e.trustScore,
          InverseLoad(e.activeIssues), NlpSimilarity(text, tags, cos))
  }

  /** The weighted sum (utils.py:82-88). */
  function Combine(w: Weights, t: Terms): real {
    w.skill * t.skill + w.availability * t.availability + w.trust * t.trust
      + w.inverseLoad * t.inverseLoad + w.nlp * t.nlp
  }

  /** `final_score` of one expert. */
  function Score(text: string, e: Expert, w: Weights, cos: Cosine): real {
    Combine(w, ScoreTerms(text, e, cos))
  }

  /** With the default weights, a non-negative trust score and a bounded
      cosine, every expert scores strictly above the initial best of -1. */
  lemma ScoreAboveFloor(text: string, e: Expert, cos: Cosine)
    requires CosineBounded(cos)
    requires e.trustScore >= 0.0
    ensures Score(text, e, DefaultWeights, cos) > -1.0
  {
    var t := ScoreTerms(text, e, cos);
    assert t.nlp >= -1.0 && t.inverseLoad > 0.0 && t.skill >= 0.0 && t.availability >= 0.0;
  }

  /** The availability term is decided by the string field alone: flipping
      `is_available` never changes a score, while marking the string field
      "available" adds exactly the availability weight. */
  lemma ScoreAvailabilitySource(text: string, e: Expert, w: Weights, cos: Cosine, flag: bool)
    ensures Score(text, e.(isAvailable := flag), w, cos) == Score(text, e, w, cos)
    ensures Score(text, e.(availability := Some("available")), w, cos)
         == Score(text, e.(availability := None), w, cos) + w.availability
  {
    assert ScoreTerms(text, e.(isAvailable := flag), cos) == ScoreTerms(text, e, cos);
    var on := ScoreTerms(text, e.(availability := Some("available")), cos);
    var off := ScoreTerms(text, e.(availability := None), cos);
    assert on == off.(availability := 1.0);
    assert off.availability == 0.0;
    CombineAvailability(w, off);
  }

  lemma CombineAvailability(w: Weights, t: Terms)
    requires t.availability == 0.0
    ensures Combine(w, t.(availability := 1.0)) == Combine(w, t) + w.availability
  {
  }
}
