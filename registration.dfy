/** The registration ledger: how `register` turns an event's `fields` schema
    and a request body into an attendee record, which record `delete_one`
    removes on unregistering, and what `check_register` answers. */
module Registration {
  import opened Documents
  import opened Store

  /** `ObjectId(eid)` accepts exactly 24 hexadecimal digits. */
  predicate IsObjectId(eid: string)
  {
    |eid| == 24 &&
    forall i :: 0 <= i < |eid| ==> '0' <= eid[i] <= '9' || 'a' <= eid[i] <= 'f' || 'A' <= eid[i] <= 'F'
  }

  /** `events_col.find_one({"_id": ObjectId(eid)}, {"fields": 1, "_id": 0})["fields"]`:
      a malformed id raises, a missing event is None (subscripting it raises),
      and an event without `fields` projects to `{}` (a KeyError). */
  function SchemaOf(events: seq<Doc>, eid: string): (r: Result<Value>)
    ensures r.Ok? ==>
      && IsObjectId(eid)
      && (exists i :: 0 <= i < |events| && FieldEq(events[i], "_id", Str(Lower(eid))) &&
                      "fields" in events[i] && r.value == events[i]["fields"])
    ensures r == Err(TypeError) <==> IsObjectId(eid) && forall i :: 0 <= i < |events| ==> !FieldEq(events[i], "_id", Str(Lower(eid)))
    ensures !IsObjectId(eid) ==> r == Err(InvalidId)
    ensures forall i :: 0 <= i < |events| && IsObjectId(eid) && FieldEq(events[i], "_id", Str(Lower(eid))) &&
                        (forall j :: 0 <= j < i ==> !FieldEq(events[j], "_id", Str(Lower(eid)))) ==>
                        r == (if "fields" in events[i] then Ok(events[i]["fields"]) else Err(KeyError))
  {
    if !IsObjectId(eid) then Err(InvalidId)
    else match FirstMatch(events, Eq("_id", Str(Lower(eid))))
      case None => Err(TypeError)
      case Some(i) => if "fields" in events[i] then Ok(events[i]["fields"]) else Err(KeyError)
  }

  /** What `for field in schema` walks over: the items of a list, the
      one-character strings of a string, the keys of an object. Iterating
      anything else raises. */
  function FieldItems(schema: Value): (r: Result<seq<Value>>)
    ensures r.Ok? <==> schema.List? || schema.Str? || schema.Object?
    ensures schema.List? ==> r == Ok(schema.items)
    ensures schema.Str? ==> |r.value| == |schema.s| && forall i :: 0 <= i < |schema.s| ==> r.value[i] == Str([schema.s[i]])
    ensures schema.Object? ==> |r.value| == |schema.entries| && forall i :: 0 <= i < |schema.entries| ==> r.value[i] == Str(schema.entries[i].0)
    ensures r.Err? ==> r.error == TypeError
  {
    match schema
    case List(xs) => Ok(xs)
    case Str(s) => Ok(seq(|s|, i requires 0 <= i < |s| => Str([s[i]])))
    case Object(es) => Ok(seq(|es|, i requires 0 <= i < |es| => Str(es[i].0)))
    case _ => Err(TypeError)
  }

  /** A schema item the loop body can use: `data[field]` needs a key the body
      has (body keys are strings) and `field.lower()` a string. */
  predicate Usable(field: Value, data: Doc)
  {
    field.Str? && field.s in data
  }

  /** The error `data[field]` raises for an item the body has no key for:
      a list or object cannot be hashed, anything else is simply absent. */
  function LookupError(field: Value): Exception
  {
    if field.List? || field.Object? then TypeError else KeyError
  }

  /** The `attendee_details` loop from a partly filled dictionary onwards. The
      right-hand side `data[field]` is evaluated before `field.lower()`, so an
      unusable item fails in the lookup. */
  function RecordFrom(details: Doc, items: seq<Value>, data: Doc): Result<Doc>
    decreases |items|
  {
    if items == [] then Ok(details)
    else if !Usable(items[0], data) then Err(LookupError(items[0]))
    else RecordFrom(details[Lower(items[0].s) := data[items[0].s]], items[1..], data)
  }

  /** `attendee_details` after the loop over the schema items. */
  function RecordOf(items: seq<Value>, data: Doc): Result<Doc>
  {
    RecordFrom(map[], items, data)
  }

  /** The loop at the heart of `register`: key each schema field by its lower-cased name. */
  method BuildRecord(items: seq<Value>, data: Doc) returns (r: Result<Doc>)
    ensures r == RecordOf(items, data)
  {
    var details: Doc := map[];
    for i := 0 to |items|
      invariant RecordFrom(details, items[i..], data) == RecordOf(items, data)
    {
      var field := items[i];
      assert items[i..][1..] == items[i + 1..];
      if field.List? || field.Object? {
        return Err(TypeError);
      }
      if !field.Str? || field.s !in data {
        return Err(KeyError);
      }
      details := details[Lower(field.s) := data[field.s]];
    }
    return Ok(details);
  }

  /** The storage keys the schema names. */
  function KeysOf(items: seq<Value>): set<string>
  {
    set i | 0 <= i < |items| && items[i].Str? :: Lower(items[i].s)
  }

  /** Item `i` is the last one stored under its lower-cased key. */
  predicate LastOfKey(items: seq<Value>, i: nat)
    requires i < |items|
  {
    items[i].Str? &&
    forall j :: i < j < |items| && items[j].Str? ==> Lower(items[j].s) != Lower(items[i].s)
  }

  lemma KeysOfCons(items: seq<Value>)
    requires items != [] && items[0].Str?
    ensures KeysOf(items) == {Lower(items[0].s)} + KeysOf(items[1..])
  {
    var rest := items[1..];
    forall k | k in KeysOf(items) ensures k in {Lower(items[0].s)} + KeysOf(rest) {
      var i :| 0 <= i < |items| && items[i].Str? && Lower(items[i].s) == k;
      if i > 0 {
        assert rest[i - 1] == items[i];
      }
    }
    forall k | k in KeysOf(rest) ensures k in KeysOf(items) {
      var i :| 0 <= i < |rest| && rest[i].Str? && Lower(rest[i].s) == k;
      assert items[i + 1] == rest[i];
    }
  }

  lemma LastOfKeyTail(items: seq<Value>, i: nat)
    requires 0 < i < |items| && LastOfKey(items, i)
    ensures items[1..][i - 1] == items[i] && LastOfKey(items[1..], i - 1)
  {
    var rest := items[1..];
    forall j | i - 1 < j < |rest| && rest[j].Str? ensures Lower(rest[j].s) != Lower(rest[i - 1].s) {
      assert rest[j] == items[j + 1];
    }
  }

  /** A finished record holds a key per schema field and nothing else new;
      each key holds the value of the last field lower-casing to it; earlier
      entries not named by the schema are kept. */
  lemma {:induction false} RecordFromContents(details: Doc, items: seq<Value>, data: Doc, m: Doc)
    requires RecordFrom(details, items, data) == Ok(m)
    ensures forall i :: 0 <= i < |items| ==> Usable(items[i], data)
    ensures m.Keys == details.Keys + KeysOf(items)
    ensures forall i :: 0 <= i < |items| && LastOfKey(items, i) && items[i].s in data ==> m[Lower(items[i].s)] == data[items[i].s]
    ensures forall k :: k in details && k !in KeysOf(items) ==> m[k] == details[k]
    decreases |items|
  {
    if items != [] {
      var rest := items[1..];
      var key := Lower(items[0].s);
      var next := details[key := data[items[0].s]];
      RecordFromContents(next, rest, data, m);
      KeysOfCons(items);
      forall i | 0 <= i < |items| ensures Usable(items[i], data) {
        if i > 0 { assert items[i] == rest[i - 1]; }
      }
      forall i | 0 <= i < |items| && LastOfKey(items, i) && items[i].s in data ensures m[Lower(items[i].s)] == data[items[i].s] {
        if i > 0 {
          LastOfKeyTail(items, i);
        }
      }
    }
  }

  /** Item `k` is the first the loop cannot use, and it raises `e`. */
  predicate StopsAt(items: seq<Value>, data: Doc, k: nat, e: Exception)
    requires k < |items|
  {
    && !Usable(items[k], data)
    && (forall j :: 0 <= j < k ==> Usable(items[j], data))
    && e == LookupError(items[k])
  }

  /** Why the loop stops: the first unusable schema item is a list or object
      (TypeError) or a value the body has no key for (KeyError). */
  lemma {:induction false} RecordFromFails(details: Doc, items: seq<Value>, data: Doc)
    requires RecordFrom(details, items, data).Err?
    ensures exists k :: 0 <= k < |items| && StopsAt(items, data, k, RecordFrom(details, items, data).error)
    decreases |items|
  {
    var e := RecordFrom(details, items, data).error;
    if Usable(items[0], data) {
      var rest := items[1..];
      var next := details[Lower(items[0].s) := data[items[0].s]];
      assert RecordFrom(details, items, data) == RecordFrom(next, rest, data);
      RecordFromFails(next, rest, data);
      var k :| 0 <= k < |rest| && StopsAt(rest, data, k, e);
      assert items[k + 1] == rest[k];
      forall j | 0 <= j < k + 1 ensures Usable(items[j], data) {
        if j > 0 { assert items[j] == rest[j - 1]; }
      }
      assert StopsAt(items, data, k + 1, e);
    } else {
      assert StopsAt(items, data, 0, e);
    }
  }

  /** The record is complete exactly when every schema item is a string field the body has. */
  lemma RecordOfSucceeds(items: seq<Value>, data: Doc)
    ensures RecordOf(items, data).Ok? <==> forall i :: 0 <= i < |items| ==> Usable(items[i], data)
  {
    match RecordOf(items, data)
    case Ok(m) => RecordFromContents(map[], items, data, m);
    case Err(_) => RecordFromFails(map[], items, data);
  }

  /** The `register` record as the source builds it: schema fields, then
      `eid`, then `uid` only when `session["user_id"]` is truthy. */
  function AttendeeRecord(schema: Value, data: Doc, eid: string, sessionUser: Option<Doc>, sessionUserId: Option<Value>): Result<Doc>
  {
    match FieldItems(schema)
    case Err(e) => Err(e)
    case Ok(items) =>
      match RecordOf(items, data)
      case Err(e) => Err(e)
      case Ok(details) =>
        var withEid := details["eid" := Str(eid)];
        if sessionUserId.Some? && Truthy(sessionUserId.value) then
          if sessionUser.None? then Err(AttributeError)
          else Ok(withEid["uid" := Get(sessionUser.value, "_id")])
        else Ok(withEid)
  }

  /** What the record holds: every schema field under its lower-cased key,
      then `eid` (overriding a schema field of that name), then `uid` exactly
      when `session["user_id"]` is truthy. */
  lemma AttendeeRecordShape(schema: Value, data: Doc, eid: string, sessionUser: Option<Doc>, sessionUserId: Option<Value>, rec: Doc)
    requires AttendeeRecord(schema, data, eid, sessionUser, sessionUserId) == Ok(rec)
    ensures FieldItems(schema).Ok?
    ensures var items := FieldItems(schema).value;
      && (forall i :: 0 <= i < |items| ==> Usable(items[i], data))
      && rec.Keys == KeysOf(items) + {"eid"} + (if sessionUserId.Some? && Truthy(sessionUserId.value) then {"uid"} else {})
      && rec["eid"] == Str(eid)
      && (sessionUserId.Some? && Truthy(sessionUserId.value) ==> sessionUser.Some? && rec["uid"] == Get(sessionUser.value, "_id"))
      && (forall i :: 0 <= i < |items| && LastOfKey(items, i) && items[i].s in data &&
                      Lower(items[i].s) != "eid" &&
                      (Lower(items[i].s) == "uid" ==> !(sessionUserId.Some? && Truthy(sessionUserId.value))) ==>
            rec[Lower(items[i].s)] == data[items[i].s])
  {
    var items := FieldItems(schema).value;
    RecordFromContents(map[], items, data, RecordOf(items, data).value);
  }

  /** The record `register` evidently means to build: `uid` is the signed-in
      user's id, so that unregistering and the check can find it. */
  function AttendeeRecordIntended(schema: Value, data: Doc, eid: string, sessionUser: Option<Doc>): (r: Result<Doc>)
    ensures r.Ok? && SignedIn(sessionUser) ==> "uid" in r.value && r.value["uid"] == Get(sessionUser.value, "_id")
    ensures r.Ok? ==> "eid" in r.value && r.value["eid"] == Str(eid)
  {
    match FieldItems(schema)
    case Err(e) => Err(e)
    case Ok(items) =>
      match RecordOf(items, data)
      case Err(e) => Err(e)
      case Ok(details) =>
        var withEid := details["eid" := Str(eid)];
        if SignedIn(sessionUser) then Ok(withEid["uid" := Get(sessionUser.value, "_id")]) else Ok(withEid)
  }

  /** An event asking for `["Name", "Phone"]`: a full body gives the record
      `{name, phone, eid}` (no `uid`, since `session["user_id"]` is unset), and
      a body without `Phone` stops the loop with a KeyError. */
  lemma NamePhoneRecord(eid: string, sessionUser: Option<Doc>)
    ensures AttendeeRecord(List([Str("Name"), Str("Phone")]),
              map["isRegistered" := Bool(true), "Name" := Str("A"), "Phone" := Str("123")],
              eid, sessionUser, None)
         == Ok(map["name" := Str("A"), "phone" := Str("123"), "eid" := Str(eid)])
    ensures AttendeeRecord(List([Str("Name"), Str("Phone")]),
              map["isRegistered" := Bool(true), "Name" := Str("A")],
              eid, sessionUser, None)
         == Err(KeyError)
  {
    assert Lower("Name") == "name";
    assert Lower("Phone") == "phone";
    assert [Str("Name"), Str("Phone")][1..] == [Str("Phone")];
    assert [Str("Phone")][1..] == [];
  }

  /** The filter of `delete_one` and of the `check_register` lookup. */
  function RegistrationQuery(uid: Value, eid: string): Query
  {
    And(Eq("uid", uid), Eq("eid", Str(eid)))
  }

  lemma RegistrationQueryMatches(d: Doc, uid: Value, eid: string)
    ensures Matches(d, RegistrationQuery(uid, eid)) <==> FieldEq(d, "uid", uid) && FieldEq(d, "eid", Str(eid))
  {
    assert Matches(d, RegistrationQuery(uid, eid)) == (Matches(d, Eq("uid", uid)) && Matches(d, Eq("eid", Str(eid))));
  }

  /** `check_register` as written: the lookup result is never consulted. */
  function CheckRegisterAnswer(sessionUser: Option<Doc>, attendees: seq<Doc>, eid: string): bool
  {
    SignedIn(sessionUser)
  }

  /** The answer `check_register` evidently means: the lookup found a record. */
  function IsRegistered(sessionUser: Option<Doc>, attendees: seq<Doc>, eid: string): bool
  {
    SignedIn(sessionUser) && FindOne(attendees, RegistrationQuery(Get(sessionUser.value, "_id"), eid)).Some?
  }

  /** As written, a signed-in caller is reported registered for an event
      whose ledger is empty; an anonymous caller never is. */
  lemma CheckRegisterIgnoresLedger(sessionUser: Option<Doc>, eid: string)
    ensures SignedIn(sessionUser) ==> CheckRegisterAnswer(sessionUser, [], eid) && !IsRegistered(sessionUser, [], eid)
    ensures !SignedIn(sessionUser) ==> !CheckRegisterAnswer(sessionUser, [], eid)
  {
  }

  /** The intended check is true exactly when the caller is signed in and a
      record carries the caller's id and this event's id. */
  lemma IsRegisteredMeaning(sessionUser: Option<Doc>, attendees: seq<Doc>, eid: string)
    ensures IsRegistered(sessionUser, attendees, eid) <==>
      SignedIn(sessionUser) &&
      exists i :: 0 <= i < |attendees| && FieldEq(attendees[i], "uid", Get(sessionUser.value, "_id")) && FieldEq(attendees[i], "eid", Str(eid))
  {
    if SignedIn(sessionUser) {
      var q := RegistrationQuery(Get(sessionUser.value, "_id"), eid);
      forall i | 0 <= i < |attendees|
        ensures Matches(attendees[i], q) <==>
          FieldEq(attendees[i], "uid", Get(sessionUser.value, "_id")) && FieldEq(attendees[i], "eid", Str(eid))
      {
        RegistrationQueryMatches(attendees[i], Get(sessionUser.value, "_id"), eid);
      }
    }
  }

  /** With the record `register` builds as written, a signed-in caller who
      then unregisters leaves the new record in the ledger: it carries no
      `uid`, so `delete_one` passes over it. */
  lemma UnregisterMissesRecord(ledger: seq<Doc>, schema: Value, data: Doc, eid: string, user: Doc, newId: string, rec: Doc)
    requires Get(user, "_id") != Null
    requires AttendeeRecord(schema, data, eid, Some(user), None) == Ok(rec)
    requires forall i :: 0 <= i < |FieldItems(schema).value| ==> FieldItems(schema).value[i].Str? ==> Lower(FieldItems(schema).value[i].s) != "uid"
    ensures "uid" !in rec
    ensures DeleteOne(InsertOne(ledger, rec, newId), RegistrationQuery(Get(user, "_id"), eid)) ==
            DeleteOne(ledger, RegistrationQuery(Get(user, "_id"), eid)) + [WithId(rec, newId)]
  {
    AttendeeRecordShape(schema, data, eid, Some(user), None, rec);
    var q := RegistrationQuery(Get(user, "_id"), eid);
    var w := WithId(rec, newId);
    assert "uid" !in w;
    RegistrationQueryMatches(w, Get(user, "_id"), eid);
    DeleteOneAfterInsert(ledger, rec, newId, q);
  }

  /** With the intended record, registering and then unregistering gives the
      ledger back, and in between the intended check reports the caller
      registered. */
  lemma RegisterThenUnregister(ledger: seq<Doc>, schema: Value, data: Doc, eid: string, user: Doc, newId: string, rec: Doc)
    requires SignedIn(Some(user))
    requires AttendeeRecordIntended(schema, data, eid, Some(user)) == Ok(rec)
    requires !IsRegistered(Some(user), ledger, eid)
    ensures IsRegistered(Some(user), InsertOne(ledger, rec, newId), eid)
    ensures DeleteOne(InsertOne(ledger, rec, newId), RegistrationQuery(Get(user, "_id"), eid)) == ledger
  {
    var q := RegistrationQuery(Get(user, "_id"), eid);
    var w := WithId(rec, newId);
    assert w["uid"] == Get(user, "_id") && w["eid"] == Str(eid);
    assert FieldEq(w, "uid", Get(user, "_id")) && FieldEq(w, "eid", Str(eid));
    RegistrationQueryMatches(w, Get(user, "_id"), eid);
    IsRegisteredMeaning(Some(user), ledger, eid);
    InsertThenDelete(ledger, rec, newId, q);
  }
}
