/** The request handlers of the service, over in-memory collections and a
    session. Each handler is a method of `App` that returns the HTTP status
    and body it answers with, or the exception it raises. */
module Service {
  import opened Documents
  import opened Store
  import opened Passwords
  import opened Requests
  import opened Registration

  datatype Body =
    | Message(text: string)
    | Error(text: string)
    | Docs(docs: seq<Doc>)
    | Document(doc: Doc)
    | Registered(registered: bool)

  datatype Outcome = Reply(status: nat, body: Body) | Crash(error: Exception)

  /** bcrypt: `hash(salt, password)` is `generate_password_hash`, with the
      random salt made a parameter; `check(stored, candidate)` is
      `check_password_hash`. */
  datatype Hasher = Hasher(hash: (string, string) -> string, check: (Value, Value) -> bool)

  const PasswordRuleMessage: string :=
    "Password must contain atleast 8 characters, 1 uppercase, 1 lowercase, 1 number and 1 special character"

  const NotLoggedIn: Outcome := Reply(403, Error("Not logged in"))

  function MissingField(required: seq<string>, i: nat): Outcome
    requires i < |required|
  {
    Reply(400, Error(MissingFieldMessage(required[i])))
  }

  /** The user document signup stores: the form fields except
      `confirmPassword`, the password replaced by its hash, and a timestamp. */
  function UserDoc(data: Doc, hashed: string, now: Value): (u: Doc)
    requires HasAll(data, SignupFields)
    ensures "password" in u && u["password"] == Str(hashed)
    ensures "createdAt" in u && u["createdAt"] == now
    ensures "confirmPassword" !in u
    ensures forall k :: k in u ==> k == "createdAt" || k in SignupFields
    ensures forall k :: k in u && k != "password" && k != "createdAt" ==> u[k] == data[k]
    ensures forall i :: 0 <= i < |SignupFields| && SignupFields[i] != "confirmPassword" ==> SignupFields[i] in u
  {
    SignupFieldsPresent(data);
    map[
      "coordinates" := data["coordinates"],
      "description" := data["description"],
      "name" := data["name"],
      "password" := Str(hashed),
      "languages" := data["languages"],
      "topics" := data["topics"],
      "email" := data["email"],
      "phone" := data["phone"],
      "organization" := data["organization"],
      "status" := data["status"],
      "industry" := data["industry"],
      "age" := data["age"],
      "gender" := data["gender"],
      "discoverable" := data["discoverable"],
      "createdAt" := now
    ]
  }

  /** The event document create-event stores: the form fields, the owner's
      `uid` as the body gives it, and a timestamp. */
  function EventDoc(data: Doc, now: Value): (e: Doc)
    requires HasAll(data, CreateEventFields)
    requires "uid" in data
    ensures "createdAt" in e && e["createdAt"] == now
    ensures "uid" in e && e["uid"] == data["uid"]
    ensures forall k :: k in e ==> k == "createdAt" || k == "uid" || k in CreateEventFields
    ensures forall k :: k in e && k != "createdAt" ==> e[k] == data[k]
    ensures forall i :: 0 <= i < |CreateEventFields| ==> CreateEventFields[i] in e
  {
    CreateEventFieldsPresent(data);
    map[
      "description" := data["description"],
      "name" := data["name"],
      "language" := data["language"],
      "topics" := data["topics"],
      "fields" := data["fields"],
      "email" := data["email"],
      "phone" := data["phone"],
      "status" := data["status"],
      "industry" := data["industry"],
      "minAge" := data["minAge"],
      "maxAge" := data["maxAge"],
      "startDate" := data["startDate"],
      "endDate" := data["endDate"],
      "coordinates" := data["coordinates"],
      "venue" := data["venue"],
      "location" := data["location"],
      "url" := data["url"],
      "genders" := data["genders"],
      "uid" := data["uid"],
      "createdAt" := now
    ]
  }

  /** The network filter: discoverable users whose email differs from the caller's. */
  function NetworkQuery(callerEmail: Value): Query
  {
    And(Ne("email", callerEmail), Eq("discoverable", Bool(true)))
  }

  lemma NetworkQueryMeaning(d: Doc, callerEmail: Value)
    ensures Matches(d, NetworkQuery(callerEmail)) <==>
      FieldEq(d, "discoverable", Bool(true)) && !FieldEq(d, "email", callerEmail)
  {
    assert Matches(d, NetworkQuery(callerEmail)) ==
      (Matches(d, Ne("email", callerEmail)) && Matches(d, Eq("discoverable", Bool(true))));
  }

  /** The fields the search matches against, in the order of the `$or`. */
  const SearchKeys: seq<string> := ["name", "venue", "location", "topics", "description"]

  function SearchQuery(pattern: string, re: Matcher): Query
  {
    Or(Regex("name", pattern, re),
    Or(Regex("venue", pattern, re),
    Or(Regex("location", pattern, re),
    Or(Regex("topics", pattern, re),
       Regex("description", pattern, re)))))
  }

  /** An event matches the search when at least one of the five fields matches. */
  lemma SearchQueryMeaning(d: Doc, pattern: string, re: Matcher)
    ensures Matches(d, SearchQuery(pattern, re)) <==>
      exists i :: 0 <= i < |SearchKeys| && FieldRegex(d, SearchKeys[i], pattern, re)
  {
    var q4 := Or(Regex("topics", pattern, re), Regex("description", pattern, re));
    var q3 := Or(Regex("location", pattern, re), q4);
    var q2 := Or(Regex("venue", pattern, re), q3);
    assert Matches(d, q4) == (FieldRegex(d, "topics", pattern, re) || FieldRegex(d, "description", pattern, re));
    assert Matches(d, q3) == (FieldRegex(d, "location", pattern, re) || Matches(d, q4));
    assert Matches(d, q2) == (FieldRegex(d, "venue", pattern, re) || Matches(d, q3));
    assert Matches(d, SearchQuery(pattern, re)) == (FieldRegex(d, "name", pattern, re) || Matches(d, q2));
    if Matches(d, SearchQuery(pattern, re)) {
      if FieldRegex(d, "name", pattern, re) { assert SearchKeys[0] == "name"; }
      else if FieldRegex(d, "venue", pattern, re) { assert SearchKeys[1] == "venue"; }
      else if FieldRegex(d, "location", pattern, re) { assert SearchKeys[2] == "location"; }
      else if FieldRegex(d, "topics", pattern, re) { assert SearchKeys[3] == "topics"; }
      else { assert SearchKeys[4] == "description"; }
    }
  }

  /** The reply with which signup refuses a request, in the order the checks
      run: missing field, password rule, confirmation, existing email. None
      when the request is accepted. */
  function SignupRejection(users: seq<Doc>, data: Doc): Option<Outcome>
  {
    match FirstMissing(data, SignupFields)
    case Some(i) => Some(MissingField(SignupFields, i))
    case None =>
      SignupFieldsPresent(data);
      match CheckPassword(data["password"])
      case Raised(e) => Some(Crash(e))
      case Rejected => Some(Reply(400, Error(PasswordRuleMessage)))
      case Accepted =>
        if data["password"] != data["confirmPassword"] then Some(Reply(400, Error("Passwords do not match")))
        else if FindOne(users, Eq("email", data["email"])).Some? then Some(Reply(400, Error("User already exists!")))
        else None
  }

  /** Signup accepts exactly the bodies that have every field, a string
      password meeting the rule, a matching confirmation and an email no
      stored user has. */
  lemma SignupAccepts(users: seq<Doc>, data: Doc)
    ensures SignupRejection(users, data).None? <==>
      && HasAll(data, SignupFields)
      && (SignupFieldsPresent(data);
          && data["password"].Str? && PasswordRule(data["password"].s)
          && data["password"] == data["confirmPassword"]
          && forall i :: 0 <= i < |users| ==> !FieldEq(users[i], "email", data["email"]))
  {
    if HasAll(data, SignupFields) {
      SignupFieldsPresent(data);
      var q := Eq("email", data["email"]);
      assert forall i :: 0 <= i < |users| ==> (Matches(users[i], q) <==> FieldEq(users[i], "email", data["email"]));
    }
  }

  /** A missing field is reported before anything else is looked at, and it
      is the first missing one in list order. */
  lemma SignupReportsFirstMissing(users: seq<Doc>, data: Doc, k: nat)
    requires k < |SignupFields| && SignupFields[k] !in data
    requires forall j :: 0 <= j < k ==> SignupFields[j] in data
    ensures SignupRejection(users, data) == Some(Reply(400, Error("Missing required field: " + SignupFields[k])))
  {
  }

  /** What login decides: refuse with a reply, or sign a user in. */
  datatype LoginResult = Denied(reply: Outcome) | Granted(user: Doc)

  /** The first user with the body's email is looked up; an empty document is
      falsy and so refused. A stored user without `password` raises KeyError,
      and a candidate password that is not a string makes the hash check
      raise TypeError. */
  function LoginDecision(users: seq<Doc>, data: Doc, hasher: Hasher): LoginResult
  {
    match FirstMissing(data, LoginFields)
    case Some(i) => Denied(MissingField(LoginFields, i))
    case None =>
      LoginFieldsPresent(data);
      match FindOne(users, Eq("email", data["email"]))
      case None => Denied(Reply(400, Error("User doesn't exist")))
      case Some(u) =>
        if u != map[] && "password" !in u then Denied(Crash(KeyError))
        else if u != map[] && !data["password"].Str? then Denied(Crash(TypeError))
        else if u != map[] && hasher.check(u["password"], data["password"]) then Granted(u)
        else Denied(Reply(400, Error("Invalid credentials")))
  }

  /** Login signs in exactly the first stored user with the given email, and
      only when its stored hash checks against the given password. */
  lemma LoginGrants(users: seq<Doc>, data: Doc, hasher: Hasher, u: Doc)
    ensures LoginDecision(users, data, hasher) == Granted(u) <==>
      && "email" in data && "password" in data
      && (exists i :: 0 <= i < |users| && users[i] == u && FieldEq(u, "email", data["email"]) &&
                      forall j :: 0 <= j < i ==> !FieldEq(users[j], "email", data["email"]))
      && "password" in u && data["password"].Str? && hasher.check(u["password"], data["password"])
  {
    if "email" in data && "password" in data {
      assert LoginFields[0] in data && LoginFields[1] in data;
      var e := data["email"];
      var q := Eq("email", e);
      assert forall j :: 0 <= j < |users| ==> (Matches(users[j], q) <==> FieldEq(users[j], "email", e));
      match FirstMatch(users, q)
      case None =>
      case Some(m) =>
        assert FindOne(users, q) == Some(users[m]);
        if users[m] == u {
          assert forall j :: 0 <= j < m ==> !FieldEq(users[j], "email", e);
        }
        if exists i :: 0 <= i < |users| && users[i] == u && FieldEq(u, "email", e) &&
                      forall j :: 0 <= j < i ==> !FieldEq(users[j], "email", e) {
          var i :| 0 <= i < |users| && users[i] == u && FieldEq(u, "email", e) &&
                   forall j :: 0 <= j < i ==> !FieldEq(users[j], "email", e);
          assert m <= i;
          assert i <= m;
        }
    } else {
      assert LoginFields[0] !in data || LoginFields[1] !in data;
    }
  }

  /** The body a client sends to log in with the email and password it signed up with. */
  function Credentials(data: Doc): Doc
  {
    map k | k in data && (k == "email" || k == "password") :: data[k]
  }

  /** Signing up and then logging in with the same email and password signs
      the new user in, given that the hasher's check accepts its own hashes. */
  lemma SignupThenLogin(users: seq<Doc>, data: Doc, hasher: Hasher, salt: string, now: Value, newId: string)
    requires forall s, p :: hasher.check(Str(hasher.hash(s, p)), Str(p))
    requires SignupRejection(users, data).None?
    ensures (SignupFieldsPresent(data);
      LoginDecision(InsertOne(users, UserDoc(data, hasher.hash(salt, data["password"].s), now), newId), Credentials(data), hasher)
      == Granted(WithId(UserDoc(data, hasher.hash(salt, data["password"].s), now), newId)))
  {
    SignupFieldsPresent(data);
    var email := data["email"];
    assert CheckPassword(data["password"]) == Accepted;
    var user := UserDoc(data, hasher.hash(salt, data["password"].s), now);
    var stored := WithId(user, newId);
    assert Matches(stored, Eq("email", email));
    FindOneAfterInsert(users, user, newId, Eq("email", email));
    var credentials := Credentials(data);
    assert credentials["email"] == email && credentials["password"] == data["password"];
    assert LoginFields[0] in credentials && LoginFields[1] in credentials;
    assert stored["password"] == Str(hasher.hash(salt, data["password"].s));
  }

  class App {
    var users: seq<Doc>
    var events: seq<Doc>
    var attendees: seq<Doc>
    /** `session["user"]`, set by login and cleared by logout. */
    var sessionUser: Option<Doc>
    /** `session["user_id"]`, which `register` consults; no handler sets it. */
    var sessionUserId: Option<Value>
    const hasher: Hasher

    constructor (hasher: Hasher)
      ensures users == [] && events == [] && attendees == []
      ensures sessionUser == None && sessionUserId == None
      ensures this.hasher == hasher
    {
      users, events, attendees := [], [], [];
      sessionUser, sessionUserId := None, None;
      this.hasher := hasher;
    }

    /** POST /api/signup. Only when every check passes is one user appended,
        holding the hash of the password and not the password. */
    method Signup(data: Doc, salt: string, now: Value, newId: string) returns (out: Outcome)
      modifies this`users
      ensures SignupRejection(old(users), data).Some? ==>
        out == SignupRejection(old(users), data).value && users == old(users)
      ensures SignupRejection(old(users), data).None? ==> (SignupFieldsPresent(data);
        && users == InsertOne(old(users), UserDoc(data, hasher.hash(salt, data["password"].s), now), newId)
        && out == Reply(200, Message("Signup successful")))
    {
      var missing := CheckRequired(data, SignupFields);
      if missing.Some? {
        return MissingField(SignupFields, missing.value);
      }
      SignupFieldsPresent(data);
      var verdict := CheckPassword(data["password"]);
      if verdict.Raised? {
        return Crash(verdict.error);
      }
      if verdict == Rejected {
        return Reply(400, Error(PasswordRuleMessage));
      }
      if data["password"] != data["confirmPassword"] {
        return Reply(400, Error("Passwords do not match"));
      }
      if FindOne(users, Eq("email", data["email"])).Some? {
        return Reply(400, Error("User already exists!"));
      }
      var hashed := hasher.hash(salt, data["password"].s);
      users := InsertOne(users, UserDoc(data, hashed, now), newId);
      return Reply(200, Message("Signup successful"));
    }

    /** POST /api/login. The session is set only when a user with that email
        exists and the hash check succeeds; otherwise it is left as it was. */
    method Login(data: Doc) returns (out: Outcome)
      modifies this`sessionUser
      ensures match LoginDecision(users, data, hasher)
        case Denied(reply) => out == reply && sessionUser == old(sessionUser)
        case Granted(u) => sessionUser == Some(u) && out == Reply(200, Document(u))
    {
      var missing := CheckRequired(data, LoginFields);
      if missing.Some? {
        return MissingField(LoginFields, missing.value);
      }
      LoginFieldsPresent(data);
      var user := FindOne(users, Eq("email", data["email"]));
      if user.None? {
        return Reply(400, Error("User doesn't exist"));
      }
      var u := user.value;
      if u != map[] && "password" !in u {
        return Crash(KeyError);
      }
      if u != map[] && !data["password"].Str? {
        return Crash(TypeError);
      }
      if u != map[] && hasher.check(u["password"], data["password"]) {
        sessionUser := Some(u);
        return Reply(200, Document(u));
      }
      return Reply(400, Error("Invalid credentials"));
    }

    /** POST /api/logout. Without a user in the session: 403 and nothing
        changes; otherwise `session["user"]` is removed. */
    method Logout() returns (out: Outcome)
      modifies this`sessionUser
      ensures !SignedIn(old(sessionUser)) ==> out == NotLoggedIn && sessionUser == old(sessionUser)
      ensures SignedIn(old(sessionUser)) ==> out == Reply(200, Message("Logout successful")) && sessionUser == None
    {
      if !SignedIn(sessionUser) {
        return NotLoggedIn;
      }
      sessionUser := None;
      return Reply(200, Message("Logout successful"));
    }

    /** POST /api/create. Signed-in callers only; the owner id comes from the
        body's `uid`, which is not among the required fields. */
    method CreateEvent(data: Doc, now: Value, newId: string) returns (out: Outcome)
      modifies this`events
      ensures !SignedIn(sessionUser) ==> out == NotLoggedIn && events == old(events)
      ensures SignedIn(sessionUser) && FirstMissing(data, CreateEventFields).Some? ==>
        out == MissingField(CreateEventFields, FirstMissing(data, CreateEventFields).value) && events == old(events)
      ensures SignedIn(sessionUser) && FirstMissing(data, CreateEventFields).None? && "uid" !in data ==>
        out == Crash(KeyError) && events == old(events)
      ensures SignedIn(sessionUser) && FirstMissing(data, CreateEventFields).None? && "uid" in data ==>
        events == InsertOne(old(events), EventDoc(data, now), newId) && out == Reply(200, Message("Event created"))
    {
      if !SignedIn(sessionUser) {
        return NotLoggedIn;
      }
      var missing := CheckRequired(data, CreateEventFields);
      if missing.Some? {
        return MissingField(CreateEventFields, missing.value);
      }
      if "uid" !in data {
        return Crash(KeyError);
      }
      events := InsertOne(events, EventDoc(data, now), newId);
      return Reply(200, Message("Event created"));
    }

    /** GET /api/network: the discoverable users other than the caller, in store order. */
    method Network() returns (out: Outcome)
      ensures !SignedIn(sessionUser) ==> out == NotLoggedIn
      ensures SignedIn(sessionUser) ==>
        out == Reply(200, Docs(Find(users, NetworkQuery(Get(sessionUser.value, "email")))))
      ensures SignedIn(sessionUser) ==> forall d :: d in out.body.docs <==>
        d in users && FieldEq(d, "discoverable", Bool(true)) && !FieldEq(d, "email", Get(sessionUser.value, "email"))
      ensures SignedIn(sessionUser) ==> sessionUser.value !in out.body.docs
    {
      if !SignedIn(sessionUser) {
        return NotLoggedIn;
      }
      var email := Get(sessionUser.value, "email");
      var found := Find(users, NetworkQuery(email));
      FindMembers(users, NetworkQuery(email));
      forall d ensures Matches(d, NetworkQuery(email)) <==>
        FieldEq(d, "discoverable", Bool(true)) && !FieldEq(d, "email", email)
      {
        NetworkQueryMeaning(d, email);
      }
      OwnFieldMatches(sessionUser.value, "email");
      return Reply(200, Docs(found));
    }

    /** GET /api/recommended: every event, whoever asks. */
    method Recommended() returns (out: Outcome)
      ensures out == Reply(200, Docs(events))
    {
      var found := Find(events, All);
      FindAllIsEverything(events);
      return Reply(200, Docs(found));
    }

    /** GET /api/search: the events one of whose five text fields matches the
        query, in store order. A request without a query sends a null
        `$regex`, and a pattern the store cannot compile (`valid` is false)
        is rejected too. */
    method Search(query: Option<string>, re: Matcher, valid: string -> bool) returns (out: Outcome)
      ensures !SignedIn(sessionUser) ==> out == NotLoggedIn
      ensures SignedIn(sessionUser) && query.None? ==> out == Crash(OperationFailure)
      ensures SignedIn(sessionUser) && query.Some? && !valid(query.value) ==> out == Crash(OperationFailure)
      ensures SignedIn(sessionUser) && query.Some? && valid(query.value) ==>
        out == Reply(200, Docs(Find(events, SearchQuery(query.value, re))))
      ensures SignedIn(sessionUser) && query.Some? && valid(query.value) ==> forall d :: d in out.body.docs <==>
        d in events && exists i :: 0 <= i < |SearchKeys| && FieldRegex(d, SearchKeys[i], query.value, re)
    {
      if !SignedIn(sessionUser) {
        return NotLoggedIn;
      }
      if query.None? || !valid(query.value) {
        return Crash(OperationFailure);
      }
      var q := SearchQuery(query.value, re);
      var found := Find(events, q);
      FindMembers(events, q);
      forall d ensures Matches(d, q) <==> exists i :: 0 <= i < |SearchKeys| && FieldRegex(d, SearchKeys[i], query.value, re) {
        SearchQueryMeaning(d, query.value, re);
      }
      return Reply(200, Docs(found));
    }

    /** GET /api/list: the events whose `uid` is the caller's `_id`, in store order. */
    method ListEvents() returns (out: Outcome)
      ensures !SignedIn(sessionUser) ==> out == NotLoggedIn
      ensures SignedIn(sessionUser) ==>
        out == Reply(200, Docs(Find(events, Eq("uid", Get(sessionUser.value, "_id")))))
      ensures SignedIn(sessionUser) ==> forall d :: d in out.body.docs <==>
        d in events && FieldEq(d, "uid", Get(sessionUser.value, "_id"))
    {
      if !SignedIn(sessionUser) {
        return NotLoggedIn;
      }
      var q := Eq("uid", Get(sessionUser.value, "_id"));
      FindMembers(events, q);
      return Reply(200, Docs(Find(events, q)));
    }

    /** GET /api/list-attendees/<eid>: every record of the event, in store
        order, to any signed-in caller. */
    method ListAttendees(eid: string) returns (out: Outcome)
      ensures !SignedIn(sessionUser) ==> out == NotLoggedIn
      ensures SignedIn(sessionUser) ==> out == Reply(200, Docs(Find(attendees, Eq("eid", Str(eid)))))
      ensures SignedIn(sessionUser) ==> forall d :: d in out.body.docs <==>
        d in attendees && "eid" in d && d["eid"] == Str(eid)
    {
      if !SignedIn(sessionUser) {
        return NotLoggedIn;
      }
      var q := Eq("eid", Str(eid));
      FindMembers(attendees, q);
      return Reply(200, Docs(Find(attendees, q)));
    }

    /** POST /api/register/<eid>. `isRegistered` exactly `true`: append the
        record built from the event's schema and answer 201 with the schema.
        Any other value: delete the first record with the caller's id and this
        event id, if there is one. */
    method Register(eid: string, data: Doc, newId: string) returns (out: Outcome)
      modifies this`attendees
      ensures "isRegistered" !in data ==> out == Crash(KeyError) && attendees == old(attendees)
      ensures "isRegistered" in data && data["isRegistered"] == Bool(true) ==>
        match SchemaOf(events, eid)
        case Err(e) => out == Crash(e) && attendees == old(attendees)
        case Ok(schema) =>
          match AttendeeRecord(schema, data, eid, sessionUser, sessionUserId)
          case Err(e) => out == Crash(e) && attendees == old(attendees)
          case Ok(rec) =>
            attendees == InsertOne(old(attendees), rec, newId) &&
            out == Reply(201, Document(map["fields" := schema]))
      ensures "isRegistered" in data && data["isRegistered"] != Bool(true) ==>
        if sessionUser.None? then out == Crash(AttributeError) && attendees == old(attendees)
        else
          attendees == DeleteOne(old(attendees), RegistrationQuery(Get(sessionUser.value, "_id"), eid)) &&
          out == Reply(200, Message("Successfully unregistered"))
    {
      if "isRegistered" !in data {
        return Crash(KeyError);
      }
      if data["isRegistered"] == Bool(true) {
        if !IsObjectId(eid) {
          return Crash(InvalidId);
        }
        var event := FindOne(events, Eq("_id", Str(Lower(eid))));
        if event.None? {
          return Crash(TypeError);
        }
        if "fields" !in event.value {
          return Crash(KeyError);
        }
        var schema := event.value["fields"];
        var items := FieldItems(schema);
        if items.Err? {
          return Crash(items.error);
        }
        var details := BuildRecord(items.value, data);
        if details.Err? {
          return Crash(details.error);
        }
        var record := details.value["eid" := Str(eid)];
        if sessionUserId.Some? && Truthy(sessionUserId.value) {
          if sessionUser.None? {
            return Crash(AttributeError);
          }
          record := record["uid" := Get(sessionUser.value, "_id")];
        }
        attendees := InsertOne(attendees, record, newId);
        return Reply(201, Document(map["fields" := schema]));
      } else {
        if sessionUser.None? {
          return Crash(AttributeError);
        }
        attendees := DeleteOne(attendees, RegistrationQuery(Get(sessionUser.value, "_id"), eid));
        return Reply(200, Message("Successfully unregistered"));
      }
    }

    /** GET /api/check-register/<eid>: answers `true` to every signed-in
        caller, whatever the lookup finds, and `false` otherwise. */
    method CheckRegister(eid: string) returns (out: Outcome)
      ensures out == Reply(200, Registered(CheckRegisterAnswer(sessionUser, attendees, eid)))
      ensures out.body.registered <==> SignedIn(sessionUser)
    {
      if SignedIn(sessionUser) {
        var check := FindOne(attendees, RegistrationQuery(Get(sessionUser.value, "_id"), eid));
        return Reply(200, Registered(true));
      }
      return Reply(200, Registered(false));
    }
  }

  /** `register` with `isRegistered: true` is not idempotent: a second
      identical request appends a second, identical record. */
  method RegisterTwice(app: App, eid: string, data: Doc, firstId: string, secondId: string)
    returns (first: Outcome, second: Outcome)
    modifies app`attendees
    ensures first.Reply? && first.status == 201 ==>
      && second == first
      && |app.attendees| == |old(app.attendees)| + 2
      && app.attendees[..|old(app.attendees)|] == old(app.attendees)
      && exists rec :: app.attendees[|old(app.attendees)|] == WithId(rec, firstId) &&
                       app.attendees[|old(app.attendees)| + 1] == WithId(rec, secondId)
  {
    var n := |app.attendees|;
    first := app.Register(eid, data, firstId);
    var middle := app.attendees;
    second := app.Register(eid, data, secondId);
    if first.Reply? && first.status == 201 {
      var schema := SchemaOf(app.events, eid).value;
      var rec := AttendeeRecord(schema, data, eid, app.sessionUser, app.sessionUserId).value;
      assert middle == old(app.attendees) + [WithId(rec, firstId)];
      assert app.attendees == middle + [WithId(rec, secondId)];
      assert app.attendees[..n] == old(app.attendees);
    }
  }
}
