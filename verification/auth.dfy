/** Registration and login of app/auth/auth_router.py. Password hashing is
    outside the model: registration receives the hash `bcrypt.hashpw`
    produced, and login receives `bcrypt.checkpw` as a predicate. */
module Auth {
  import opened Common
  import opened Records

  /** `ADMIN_EMAILS` (auth_router.py:16). */
  const AdminEmails: seq<string> := ["admin@example.com"]

  /** The body of a `/register` request; the optional fields carry their
      pydantic defaults when absent. */
  datatype RegisterForm = RegisterForm(
    email: string, name: string, role: string, background: Background, quizScore: int, region: string)

  /** The email of every document, by id. */
  function UserEmails(docs: map<string, User>): map<string, string> {
    map id | id in docs :: docs[id].email
  }

  function ExpertEmails(docs: map<string, Expert>): map<string, string> {
    map id | id in docs :: docs[id].email
  }

  /** Storing one document adds its email under its id. */
  lemma UserEmailsUpdate(docs: map<string, User>, id: string, u: User)
    ensures UserEmails(docs[id := u]) == UserEmails(docs)[id := u.email]
  {
  }

  lemma ExpertEmailsUpdate(docs: map<string, Expert>, id: string, e: Expert)
    ensures ExpertEmails(docs[id := e]) == ExpertEmails(docs)[id := e.email]
  {
  }

  predicate HasEmail(emails: map<string, string>, id: string, email: string) {
    id in emails && emails[id] == email
  }

  /** Some user or expert already uses `email` (auth_router.py:42). */
  predicate EmailTaken(st: Store, email: string) {
    || (exists id :: id in st.users.docs && st.users.docs[id].email == email)
    || (exists id :: id in st.experts.docs && st.experts.docs[id].email == email)
  }

  /** The expert document registration writes (auth_router.py:49-69): no
      skills or tags, not available, not verified, three concurrent issues
      at most, a trust score of one half counted as one vote. */
  function NewExpert(form: RegisterForm, hash: string): Expert {
    Expert(form.name, form.email, hash, form.region, false, false, None, 0, 0.5, 1, 3, TagList([]), [], [],
           form.background, form.quizScore, "")
  }

  /** The user document registration writes (auth_router.py:73-80); it has
      no `trust_votes`. */
  function NewUser(form: RegisterForm, hash: string): User {
    User(form.name, form.email, hash, 0.5, None, form.region)
  }

  /** `register` (auth_router.py:40-86) with the fresh `uuid4` `newId` and
      the password hash `hash`. */
  function Register(st: Store, form: RegisterForm, newId: string, hash: string): (r: Step<()>)
    requires newId !in st.users.docs && newId !in st.experts.docs
    ensures EmailTaken(st, form.email) ==> r == Refuse(st, 400)
    ensures form.role != "expert" && form.role != "user" ==> r == Refuse(st, 400)
    ensures r.outcome.Ok? <==> !EmailTaken(st, form.email) && (form.role == "expert" || form.role == "user")
    ensures r.events == [] && r.retries == []
    ensures r.outcome.Ok? && form.role == "expert" ==>
      && r.store == st.(experts := r.store.experts)
      && r.store.experts.docs.Keys == st.experts.docs.Keys + {newId}
      && (forall x :: x in st.experts.docs ==> r.store.experts.docs[x] == st.experts.docs[x])
      && var e := r.store.experts.docs[newId];
      && e.email == form.email && e.passwordHash == hash && e.region == form.region
      && !e.isVerified && !e.isAvailable && e.availability == None
      && e.activeIssues == 0 && e.maxConcurrentIssues == 3
      && e.trustScore == 0.5 && e.trustVotes == 1 && e.tags == TagList([])
    ensures r.outcome.Ok? && form.role == "user" ==>
      && r.store == st.(users := r.store.users)
      && r.store.users.docs.Keys == st.users.docs.Keys + {newId}
      && (forall x :: x in st.users.docs ==> r.store.users.docs[x] == st.users.docs[x])
      && var u := r.store.users.docs[newId];
      && u.email == form.email && u.passwordHash == hash && u.region == form.region
      && u.trustScore == 0.5 && u.trustVotes == None
    ensures WfStore(st) ==> WfStore(r.store)
  {
    if EmailTaken(st, form.email) then Refuse(st, 400)
    else if form.role == "expert" then
      Step(st.(experts := Insert(st.experts, newId, NewExpert(form, hash))), [], [], Ok(()))
    else if form.role == "user" then
      Step(st.(users := Insert(st.users, newId, NewUser(form, hash))), [], [], Ok(()))
    else Refuse(st, 400)
  }

  /** A successful registration takes the email, so the same email cannot
      register twice. */
  lemma RegisterTakesEmail(st: Store, form: RegisterForm, newId: string, hash: string,
                           form2: RegisterForm, newId2: string, hash2: string)
    requires newId !in st.users.docs && newId !in st.experts.docs
    requires Register(st, form, newId, hash).outcome.Ok?
    requires form2.email == form.email
    ensures var s := Register(st, form, newId, hash).store;
      newId2 !in s.users.docs && newId2 !in s.experts.docs ==>
      Register(s, form2, newId2, hash2) == Refuse(s, 400)
  {
    var s := Register(st, form, newId, hash).store;
    if form.role == "expert" {
      assert s.experts.docs[newId].email == form.email;
    } else {
      assert s.users.docs[newId].email == form.email;
    }
  }

  /** The index of the first id of `order[i..]` whose document has `email`:
      `find_one({"email": ...})` in natural order. */
  function FirstFrom(emails: map<string, string>, order: seq<string>, email: string, i: nat): (r: Option<nat>)
    requires i <= |order|
    ensures r.Some? ==> i <= r.value < |order| && HasEmail(emails, order[r.value], email)
    ensures r.Some? ==> forall j :: i <= j < r.value ==> !HasEmail(emails, order[j], email)
    ensures r.None? ==> forall j :: i <= j < |order| ==> !HasEmail(emails, order[j], email)
    decreases |order| - i
  {
    if i == |order| then None
    else if HasEmail(emails, order[i], email) then Some(i)
    else FirstFrom(emails, order, email, i + 1)
  }

  /** The claims of the token `login` issues (auth_router.py:120-125). */
  datatype Session = Session(userId: Option<string>, role: string, email: string, region: Option<string>)

  /** `login` (auth_router.py:91-131): users are searched before experts,
      the password is checked against the stored hash, and the listed
      administrator emails log in as "admin". The id claim is
      `user.get("user_id") or user.get("expert_id")`, so a user document
      with an empty id yields none. */
  function Login(st: Store, email: string, password: string, checkpw: (string, string) -> bool)
    : (r: Outcome<Session>)
    ensures r.Fail? ==> r.code == 401
    ensures (forall j :: 0 <= j < |st.users.order| ==> !HasEmail(UserEmails(st.users.docs), st.users.order[j], email))
         && (forall j :: 0 <= j < |st.experts.order| ==> !HasEmail(ExpertEmails(st.experts.docs), st.experts.order[j], email))
      ==> r == Fail(401)
    ensures r.Ok? ==> r.value.email == email
    ensures r.Ok? ==> (r.value.role == "admin" <==> email in AdminEmails)
    ensures r.Ok? && email !in AdminEmails ==>
      (r.value.role == "user" <==> exists j :: 0 <= j < |st.users.order| && HasEmail(UserEmails(st.users.docs), st.users.order[j], email))
    ensures r.Ok? && r.value.userId.Some? ==>
      var id := r.value.userId.value;
      || (id in st.users.docs && st.users.docs[id].email == email && checkpw(password, st.users.docs[id].passwordHash)
          && r.value.region == Some(st.users.docs[id].region))
      || (id in st.experts.docs && st.experts.docs[id].email == email && checkpw(password, st.experts.docs[id].passwordHash)
          && r.value.region == Some(st.experts.docs[id].region))
  {
    var u := FirstFrom(UserEmails(st.users.docs), st.users.order, email, 0);
    if u.Some? then
      var id := st.users.order[u.value];
      var doc := st.users.docs[id];
      if !checkpw(password, doc.passwordHash) then Fail(401)
      else Ok(Session(if id != "" then Some(id) else None,
                      if email in AdminEmails then "admin" else "user", email, Some(doc.region)))
    else
      var e := FirstFrom(ExpertEmails(st.experts.docs), st.experts.order, email, 0);
      if e.None? then Fail(401)
      else
        var id := st.experts.order[e.value];
        var doc := st.experts.docs[id];
        if !checkpw(password, doc.passwordHash) then Fail(401)
        else Ok(Session(Some(id), if email in AdminEmails then "admin" else "expert", email, Some(doc.region)))
  }

  /** The password is checked against the first user document with the
      email, whatever its id: a wrong one gets 401, a right one a session
      with that document's region (auth_router.py:93, 112-113). */
  lemma LoginChecksUserPassword(st: Store, email: string, password: string, checkpw: (string, string) -> bool, k: nat)
    requires k < |st.users.order| && HasEmail(UserEmails(st.users.docs), st.users.order[k], email)
    requires forall j :: 0 <= j < k ==> !HasEmail(UserEmails(st.users.docs), st.users.order[j], email)
    ensures var doc := st.users.docs[st.users.order[k]];
      && (!checkpw(password, doc.passwordHash) <==> Login(st, email, password, checkpw) == Fail(401))
      && (checkpw(password, doc.passwordHash) ==> Login(st, email, password, checkpw).value.region == Some(doc.region))
  {
    assert FirstFrom(UserEmails(st.users.docs), st.users.order, email, 0) == Some(k);
  }

  /** With no user document holding the email, the password is checked
      against the first expert document with it (auth_router.py:97-99,
      112-113). */
  lemma LoginChecksExpertPassword(st: Store, email: string, password: string, checkpw: (string, string) -> bool, k: nat)
    requires forall j :: 0 <= j < |st.users.order| ==> !HasEmail(UserEmails(st.users.docs), st.users.order[j], email)
    requires k < |st.experts.order| && HasEmail(ExpertEmails(st.experts.docs), st.experts.order[k], email)
    requires forall j :: 0 <= j < k ==> !HasEmail(ExpertEmails(st.experts.docs), st.experts.order[j], email)
    ensures var doc := st.experts.docs[st.experts.order[k]];
      && (!checkpw(password, doc.passwordHash) <==> Login(st, email, password, checkpw) == Fail(401))
      && (checkpw(password, doc.passwordHash) ==>
            Login(st, email, password, checkpw).value == Session(Some(st.experts.order[k]),
              if email in AdminEmails then "admin" else "expert", email, Some(doc.region)))
  {
    assert FirstFrom(UserEmails(st.users.docs), st.users.order, email, 0).None?;
    assert FirstFrom(ExpertEmails(st.experts.docs), st.experts.order, email, 0) == Some(k);
  }

  /** Appending a fresh id whose document is the only one with `email`
      makes the search find that id. */
  lemma FindAppended(emails: map<string, string>, order: seq<string>, email: string, newId: string)
    requires forall j :: 0 <= j < |order| ==> !HasEmail(emails, order[j], email)
    requires newId !in order
    ensures FirstFrom(emails[newId := email], order + [newId], email, 0) == Some(|order|)
  {
    var emails' := emails[newId := email];
    var order' := order + [newId];
    assert forall j :: 0 <= j < |order| ==> !HasEmail(emails', order'[j], email) by {
      forall j | 0 <= j < |order| ensures !HasEmail(emails', order'[j], email) {
        assert order'[j] == order[j] && order[j] != newId;
      }
    }
    assert HasEmail(emails', order'[|order|], email);
  }

  lemma NoneBefore(emails: map<string, string>, docs: set<string>, order: seq<string>, email: string)
    requires emails.Keys == docs && forall id :: id in docs ==> emails[id] != email
    ensures forall j :: 0 <= j < |order| ==> !HasEmail(emails, order[j], email)
  {
  }

  /** The login outcome once the search has found document `k`. */
  lemma LoginFindsUser(st: Store, email: string, password: string, checkpw: (string, string) -> bool, k: nat)
    requires FirstFrom(UserEmails(st.users.docs), st.users.order, email, 0) == Some(k)
    requires checkpw(password, st.users.docs[st.users.order[k]].passwordHash) && st.users.order[k] != ""
    ensures Login(st, email, password, checkpw)
         == Ok(Session(Some(st.users.order[k]), if email in AdminEmails then "admin" else "user", email,
                       Some(st.users.docs[st.users.order[k]].region)))
  {
  }

  lemma LoginFindsExpert(st: Store, email: string, password: string, checkpw: (string, string) -> bool, k: nat)
    requires FirstFrom(UserEmails(st.users.docs), st.users.order, email, 0) == None
    requires FirstFrom(ExpertEmails(st.experts.docs), st.experts.order, email, 0) == Some(k)
    requires checkpw(password, st.experts.docs[st.experts.order[k]].passwordHash)
    ensures Login(st, email, password, checkpw)
         == Ok(Session(Some(st.experts.order[k]), if email in AdminEmails then "admin" else "expert", email,
                       Some(st.experts.docs[st.experts.order[k]].region)))
  {
  }

  /** Registering and then logging in with a password the hash accepts
      yields the new account: its id, its region, and the role registered
      (or "admin" for the administrator emails). */
  lemma RegisterThenLogin(st: Store, form: RegisterForm, newId: string, hash: string, password: string,
                          checkpw: (string, string) -> bool)
    requires WfStore(st)
    requires newId !in st.users.docs && newId !in st.experts.docs && newId != ""
    requires !EmailTaken(st, form.email) && (form.role == "expert" || form.role == "user")
    requires checkpw(password, hash)
    ensures Login(Register(st, form, newId, hash).store, form.email, password, checkpw)
         == Ok(Session(Some(newId), if form.email in AdminEmails then "admin" else form.role, form.email,
                       Some(form.region)))
  {
    if form.role == "user" {
      RegisteredUserFound(st, form, newId, hash);
      var s := Register(st, form, newId, hash).store;
      LoginFindsUser(s, form.email, password, checkpw, |st.users.order|);
    } else {
      RegisteredExpertFound(st, form, newId, hash);
      var s := Register(st, form, newId, hash).store;
      LoginFindsExpert(s, form.email, password, checkpw, |st.experts.order|);
    }
  }

  lemma RegisteredUserFound(st: Store, form: RegisterForm, newId: string, hash: string)
    requires WfStore(st)
    requires newId !in st.users.docs && newId !in st.experts.docs
    requires !EmailTaken(st, form.email) && form.role == "user"
    ensures var s := Register(st, form, newId, hash).store;
      && |st.users.order| < |s.users.order| && s.users.order[|st.users.order|] == newId
      && s.users.docs[newId] == NewUser(form, hash)
      && FirstFrom(UserEmails(s.users.docs), s.users.order, form.email, 0) == Some(|st.users.order|)
  {
    var s := Register(st, form, newId, hash).store;
    assert s.users == Coll(st.users.docs[newId := NewUser(form, hash)], st.users.order + [newId]);
    NoneBefore(UserEmails(st.users.docs), st.users.docs.Keys, st.users.order, form.email);
    UserEmailsUpdate(st.users.docs, newId, NewUser(form, hash));
    FindAppended(UserEmails(st.users.docs), st.users.order, form.email, newId);
  }

  lemma RegisteredExpertFound(st: Store, form: RegisterForm, newId: string, hash: string)
    requires WfStore(st)
    requires newId !in st.users.docs && newId !in st.experts.docs
    requires !EmailTaken(st, form.email) && form.role == "expert"
    ensures var s := Register(st, form, newId, hash).store;
      && |st.experts.order| < |s.experts.order| && s.experts.order[|st.experts.order|] == newId
      && s.experts.docs[newId] == NewExpert(form, hash)
      && FirstFrom(UserEmails(s.users.docs), s.users.order, form.email, 0) == None
      && FirstFrom(ExpertEmails(s.experts.docs), s.experts.order, form.email, 0) == Some(|st.experts.order|)
  {
    var s := Register(st, form, newId, hash).store;
    assert s == st.(experts := Coll(st.experts.docs[newId := NewExpert(form, hash)], st.experts.order + [newId]));
    NoneBefore(UserEmails(st.users.docs), st.users.docs.Keys, st.users.order, form.email);
    NoneBefore(ExpertEmails(st.experts.docs), st.experts.docs.Keys, st.experts.order, form.email);
    ExpertEmailsUpdate(st.experts.docs, newId, NewExpert(form, hash));
    FindAppended(ExpertEmails(st.experts.docs), st.experts.order, form.email, newId);
  }
}
