/** The expert onboarding quiz of frontend/js/quiz.js: three radio-button
    answers scored against a fixed key. */
module Quiz {
  import opened Common

  /** The correct answers to q1, q2 and q3 (quiz.js:19-23). */
  const Key: seq<string> := ["b", "a", "c"]

  /** One point for an answer equal to its key. */
  function Point(answer: Option<string>, key: string): nat {
    if answer == Some(key) then 1 else 0
  }

  /** Points of `answers` against `keys`, pairwise; peeled from the end to
      follow the loop. */
  function Points(answers: seq<Option<string>>, keys: seq<string>): nat
    requires |answers| == |keys|
    decreases |answers|
  {
    if answers == [] then 0
    else Points(answers[..|answers| - 1], keys[..|keys| - 1]) + Point(answers[|answers| - 1], keys[|keys| - 1])
  }

  lemma {:induction false} PointsBounds(answers: seq<Option<string>>, keys: seq<string>)
    requires |answers| == |keys|
    ensures Points(answers, keys) <= |answers|
    ensures Points(answers, keys) == |answers| <==> forall i :: 0 <= i < |answers| ==> answers[i] == Some(keys[i])
    decreases |answers|
  {
    if answers != [] {
      var n := |answers| - 1;
      PointsBounds(answers[..n], keys[..n]);
      if Points(answers, keys) == |answers| {
        forall i | 0 <= i < |answers| ensures answers[i] == Some(keys[i]) {
          if i < n { assert answers[..n][i] == answers[i] && keys[..n][i] == keys[i]; }
        }
      }
      if forall i :: 0 <= i < |answers| ==> answers[i] == Some(keys[i]) {
        assert forall i :: 0 <= i < n ==> answers[..n][i] == Some(keys[..n][i]);
      }
    }
  }

  /** Correcting one wrong answer adds exactly one point. */
  lemma {:induction false} CorrectingAddsOne(answers: seq<Option<string>>, keys: seq<string>, k: nat)
    requires |answers| == |keys| && k < |answers| && answers[k] != Some(keys[k])
    ensures Points(answers[k := Some(keys[k])], keys) == Points(answers, keys) + 1
    decreases |answers|
  {
    var n := |answers| - 1;
    var fixed := answers[k := Some(keys[k])];
    if k < n {
      assert fixed[..n] == answers[..n][k := Some(keys[k])];
      CorrectingAddsOne(answers[..n], keys[..n], k);
    } else {
      assert fixed[..n] == answers[..n];
    }
  }

  /** `submitQuiz` (quiz.js:7-28): nothing is scored unless all three
      questions are answered (an unchecked group reads `undefined`);
      otherwise one point per answer equal to its key. */
  method SubmitQuiz(q1: Option<string>, q2: Option<string>, q3: Option<string>) returns (r: Option<nat>)
    ensures r.None? <==> !Present(q1) || !Present(q2) || !Present(q3)
    ensures r.Some? ==> r.value == Points([q1, q2, q3], Key)
    ensures r.Some? ==> r.value <= 3
    ensures r.Some? ==> (r.value == 3 <==> q1 == Some("b") && q2 == Some("a") && q3 == Some("c"))
  {
    if !Present(q1) || !Present(q2) || !Present(q3) {
      return None;
    }
    var answers := [q1, q2, q3];
    var score := 0;
    var i := 0;
    while i < |Key|
      invariant 0 <= i <= |Key|
      invariant score == Points(answers[..i], Key[..i])
    {
      assert answers[..i + 1][..i] == answers[..i] && Key[..i + 1][..i] == Key[..i];
      if answers[i] == Some(Key[i]) {
        score := score + 1;
      }
      i := i + 1;
    }
    assert answers[..3] == answers && Key[..3] == Key;
    PointsBounds(answers, Key);
    assert (forall j :: 0 <= j < 3 ==> answers[j] == Some(Key[j])) <==> answers == [Some("b"), Some("a"), Some("c")];
    return Some(score);
  }
}
