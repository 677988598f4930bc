/** The sign-up and login pages of frontend/js/auth.js: parsing the
    comma-separated tag field, building the registration body, and the
    dashboard each role is sent to. */
module Signup {
  import opened Common
  import opened Text
  import opened Records
  import Auth

  /** `tag.trim()` of every piece. */
  function TrimAll(parts: seq<string>): (r: seq<string>)
    ensures |r| == |parts|
    ensures forall k :: 0 <= k < |r| ==> r[k] == Trim(parts[k])
  {
    seq(|parts|, k requires 0 <= k < |parts| => Trim(parts[k]))
  }

  /** `xs` is `ys` with some elements dropped, the rest kept in order. */
  ghost predicate Subsequence(xs: seq<string>, ys: seq<string>)
    decreases |ys|
  {
    if xs == [] then true
    else if ys == [] then false
    else (xs[0] == ys[0] && Subsequence(xs[1..], ys[1..])) || Subsequence(xs, ys[1..])
  }

  lemma {:induction false} NonEmptyKeepsOrder(parts: seq<string>)
    ensures Subsequence(NonEmpty(parts), parts)
    decreases |parts|
  {
    if parts != [] {
      NonEmptyKeepsOrder(parts[1..]);
      if parts[0] == "" {
        assert NonEmpty(parts) == NonEmpty(parts[1..]);
        SubsequenceOfTail(NonEmpty(parts), parts);
      } else {
        assert NonEmpty(parts) == [parts[0]] + NonEmpty(parts[1..]);
        assert NonEmpty(parts)[1..] == NonEmpty(parts[1..]);
      }
    }
  }

  lemma SubsequenceOfTail(xs: seq<string>, ys: seq<string>)
    requires ys != [] && Subsequence(xs, ys[1..])
    ensures Subsequence(xs, ys)
  {
  }

  /** The tag list the sign-up form sends (auth.js:41-42): the text of the
      tags field (absent reads as ""), split at commas, each piece trimmed,
      empty pieces dropped. */
  function ParseTags(raw: Option<string>): (r: seq<string>)
    ensures forall k :: 0 <= k < |r| ==> r[k] != "" && Trimmed(r[k])
    ensures |r| <= Count(raw.GetOr(""), ',') + 1
    ensures raw.GetOr("") == "" ==> r == []
    ensures forall p :: p in TrimAll(SplitOn(raw.GetOr(""), ',')) && p != "" ==> p in r
  {
    var pieces := TrimAll(SplitOn(raw.GetOr(""), ','));
    assert forall k :: 0 <= k < |pieces| ==> Trimmed(pieces[k]);
    NonEmpty(pieces)
  }

  /** Parsing keeps the pieces in the order they were typed. */
  lemma ParseTagsKeepsOrder(raw: Option<string>)
    ensures Subsequence(ParseTags(raw), TrimAll(SplitOn(raw.GetOr(""), ',')))
  {
    NonEmptyKeepsOrder(TrimAll(SplitOn(raw.GetOr(""), ',')));
  }

  lemma {:induction false} NonEmptyOfNonEmpty(parts: seq<string>)
    requires forall k :: 0 <= k < |parts| ==> parts[k] != ""
    ensures NonEmpty(parts) == parts
    decreases |parts|
  {
    if parts != [] {
      NonEmptyOfNonEmpty(parts[1..]);
      assert [parts[0]] + parts[1..] == parts;
    }
  }

  /** Joining tags that are non-empty, trimmed and free of commas with ","
      and parsing the result gives the same tags back. */
  lemma ParseJoinedTags(tags: seq<string>)
    requires forall k :: 0 <= k < |tags| ==> tags[k] != "" && Trimmed(tags[k]) && ',' !in tags[k]
    ensures ParseTags(Some(Join(tags, ','))) == tags
  {
    if tags != [] {
      SplitJoin(tags, ',');
      assert TrimAll(tags) == tags;
      NonEmptyOfNonEmpty(tags);
    }
  }

  /** The JSON body `signup` posts to `/register` (auth.js:44-54). */
  datatype SignupBody = SignupBody(
    email: string, password: string, name: string, role: string, region: string,
    expertTags: Option<seq<string>>)

  function BuildSignup(email: string, password: string, name: string, role: string, region: string,
                       tagsRaw: Option<string>): (r: SignupBody)
    ensures r.expertTags.Some? <==> role == "expert"
    ensures r.expertTags.Some? ==> r.expertTags.value == ParseTags(tagsRaw)
    ensures r.email == email && r.password == password && r.name == name && r.role == role && r.region == region
  {
    SignupBody(email, password, name, role, region, if role == "expert" then Some(ParseTags(tagsRaw)) else None)
  }

  /** `redirectToDashboard` (auth.js:98-106): the page for each of the three
      roles; any other role stays on the page. */
  function Dashboard(role: string): (r: Option<string>)
    ensures r.Some? <==> role == "user" || role == "expert" || role == "admin"
    ensures role == "user" ==> r == Some("user_dashboard.html")
    ensures role == "expert" ==> r == Some("expert_dashboard.html")
    ensures role == "admin" ==> r == Some("admin_dashboard.html")
  {
    if role == "user" then Some("user_dashboard.html")
    else if role == "expert" then Some("expert_dashboard.html")
    else if role == "admin" then Some("admin_dashboard.html")
    else None
  }

  /** The three roles reach three different dashboards. */
  lemma DashboardsDistinct(a: string, b: string)
    requires Dashboard(a).Some? && Dashboard(b).Some? && a != b
    ensures Dashboard(a) != Dashboard(b)
  {
  }

  /** What `login` on the page does with the server's reply (auth.js:15-24):
      a token, an id and a role must all be present before redirecting. */
  function AfterLogin(reply: Outcome<Auth.Session>): (r: Option<string>)
    ensures r.Some? ==> reply.Ok? && Present(reply.value.userId) && Dashboard(reply.value.role) == r
  {
    if reply.Ok? && Present(reply.value.userId) && reply.value.role != "" then Dashboard(reply.value.role)
    else None
  }

  /** Every role the server's login issues has a dashboard, so a freshly
      registered account with a non-empty id is always redirected. */
  lemma LoginAlwaysRedirects(st: Store, email: string, password: string, checkpw: (string, string) -> bool)
    requires Auth.Login(st, email, password, checkpw).Ok?
    requires Present(Auth.Login(st, email, password, checkpw).value.userId)
    ensures AfterLogin(Auth.Login(st, email, password, checkpw)).Some?
  {
  }
}
