# 1Click backend: a Dafny model of the request handlers

This project models the core of `backend/app.py`, the Flask service behind
1Click. 1Click is an event platform: people sign up, log in, create events,
browse other users, and register for events with a per-event form.

The model keeps the handlers' own logic and replaces their environment:

- The three MongoDB collections (`users`, `events`, `attendees`) become
  sequences of string-keyed documents, kept in insertion order.
- The session becomes two fields: `session["user"]` and `session["user_id"]`.
- bcrypt becomes a pair of uninterpreted functions.
- The `$regex` match becomes an abstract matcher.

Each route handler is a method of the class `Service.App`. A method returns
the status and body the route answers with, or the Python exception the
route raises (`Crash`). Its `modifies` clause names the one collection or
session entry it changes.

Files:

- `documents.dfy` (`Documents`):
  - JSON values and documents.
  - `dict.get`, Python truthiness and `str.lower`.
  - The exceptions a handler can raise.
- `store.dfy` (`Store`): the document store as the handlers use it.
  - Filter documents: equality (a null also matches a missing field), `$ne`, `$regex`, conjunction and `$or`.
  - `find`, `find_one`, `insert_one` (which adds an `_id`) and `delete_one`.
- `passwords.dfy` (`Passwords`): `validate_password`, including what it does with a password that is not a string.
- `requests.dfy` (`Requests`): the required-field lists and the first-missing-field loop.
- `registration.dfy` (`Registration`):
  - The event schema lookup and the loop that builds an attendee record.
  - The delete filter for unregistering.
  - The registration check.
- `app.dfy` (`Service`): the handlers, and lemmas that relate several of them.

The password rule is what `validate_password` checks: at least eight
characters, no whitespace, and a lower-case letter, an upper-case letter and
a digit. The rejection message also asks for a special character, but no
check enforces it.

## Model

| member | source | states |
|---|---|---|
| Passwords.ValidatePasswordMeaning | backend/app.py:41-56 | The validator accepts exactly the passwords of length at least 8 that have no whitespace character and contain a lower-case letter, an upper-case letter and a digit. |
| Passwords.SearchFinds | backend/app.py:52-54 | Each `re.search` for a one-character class succeeds iff some character of the password is in the class. |
| Passwords.NoSpecialCharacterNeeded | backend/app.py:44-56 | A password with none of `_`, `@`, `$` (`Abcdefg1`) is accepted: the special character the comment and message ask for is not checked. |
| Passwords.CheckPassword | backend/app.py:52-56 | For any JSON value: accepted iff it is a string meeting the rule. Rejected iff it is a string failing the rule, or a list or object shorter than 8 (`len` then short-circuits). Every other value raises TypeError. |
| Requests.FirstMissing | backend/app.py:81-83 | No missing field iff every required key is present; otherwise the reported index names an absent key, and every earlier key is present. |
| Requests.CheckRequired | backend/app.py:81-83 | The early-return loop over the required fields returns exactly the first missing key's position in list order, or none. |
| Requests.SignupFieldsPresent | backend/app.py:64-83 | Passing the signup field check means each of the fifteen named keys is in the body. |
| Requests.LoginFieldsPresent | backend/app.py:152-155 | Passing the login field check means `email` and `password` are in the body. |
| Requests.CreateEventFieldsPresent | backend/app.py:212-234 | Passing the create-event field check means each of the eighteen named keys is in the body. |
| Store.FindMembers | backend/app.py:273 | `find` returns exactly the stored documents that match the filter. |
| Store.FindAppend | backend/app.py:312 | `find` keeps store order: it distributes over concatenation of the collection. |
| Store.FindAllIsEverything | backend/app.py:279 | `find()` with no filter returns the whole collection, in order. |
| Store.FirstMatch | backend/app.py:158 | `find_one` picks a matching document with no match before it, and finds nothing iff no document matches. |
| Store.WithId | backend/app.py:119 | The stored document has the inserted keys plus `_id` and keeps every inserted value. |
| Store.InsertOne | backend/app.py:347 | `insert_one` appends exactly one document after the unchanged collection. |
| Store.DeleteOneRemovesAtMostOne | backend/app.py:350 | `delete_one` leaves the collection unchanged when nothing matches. Otherwise it removes exactly the first matching document (the multiset loses that one element). Every non-matching document keeps its multiplicity. |
| Store.FindOneAfterInsert | backend/app.py:93-119 | A filter that matched nothing before an insertion, and matches the inserted document, finds that document afterwards. |
| Store.DeleteOneAfterInsert | backend/app.py:347-350 | Deleting with a filter the inserted document does not match removes what it removed before and leaves the inserted document last. |
| Store.FirstMatchAppend | backend/app.py:347-350 | Appending a document never moves the first match; it becomes the first match only when nothing before it matched. |
| Store.InsertThenDelete | backend/app.py:347-350 | When nothing earlier matches, deleting with a filter the inserted document matches gives the collection back. |
| Store.OwnFieldMatches | backend/app.py:272 | A document's own `get(key)` value always satisfies equality on that key. |
| Service.UserDoc | backend/app.py:97-116 | The stored user has the password hash under `password`, never `confirmPassword`, the timestamp under `createdAt`, and every other signup field copied from the body. |
| Service.EventDoc | backend/app.py:237-258 | The stored event has all eighteen form fields and `uid` copied from the body, plus the timestamp. |
| Service.SignupAccepts | backend/app.py:81-94 | Signup refuses nothing exactly when every field is present, the password is a string meeting the rule and equal to `confirmPassword`, and no stored user has that email. |
| Service.SignupReportsFirstMissing | backend/app.py:81-83 | A missing field is reported first, and it is the first missing one in list order. |
| Service.App.Signup | backend/app.py:59-143 | A refused request changes nothing and answers with the first failing check, in the order fields, rule, confirmation, duplicate email. Otherwise exactly one user document (with the hash) is appended and `Signup successful` is answered. |
| Service.LoginGrants | backend/app.py:152-170 | Login grants a user iff `email` and `password` are in the body, the user is the first stored user with that email, it has a `password`, the given password is a string, and the hash check passes. |
| Service.App.Login | backend/app.py:147-170 | A granted login stores that user in `session["user"]` and returns it with 200. Every refusal or crash (KeyError for a stored user without `password`, TypeError for a non-string password) leaves the session as it was. |
| Service.SignupThenLogin | backend/app.py:93-168 | With a sound hasher, logging in with the email and password of an accepted signup signs in exactly the newly stored user. |
| Service.App.Logout | backend/app.py:174-179 | Without a signed-in user: 403 and no change. Otherwise `session["user"]` is removed and logout succeeds. |
| Service.App.CreateEvent | backend/app.py:204-263 | The reply is one of the following, and only the last case stores anything: 403 without a session; the first missing field; KeyError when the body has no `uid`; otherwise exactly one event document is appended. |
| Service.NetworkQueryMeaning | backend/app.py:272 | The network filter matches exactly the discoverable users whose email differs from the caller's. |
| Service.App.Network | backend/app.py:266-274 | 403 without a session. Otherwise the reply is exactly the discoverable users with another email, in store order, and never the caller's own document. |
| Service.App.Recommended | backend/app.py:277-280 | Every event, in store order, whoever asks. |
| Service.SearchQueryMeaning | backend/app.py:290-298 | The search filter matches an event iff one of name, venue, location, topics or description matches the pattern. |
| Service.App.Search | backend/app.py:284-302 | 403 without a session. A request without a query, or with a pattern the store cannot compile, is refused by the store (OperationFailure). Otherwise the reply is exactly the events with one of the five fields matching, in store order. |
| Service.App.ListEvents | backend/app.py:307-313 | 403 without a session. Otherwise exactly the events whose `uid` equals the caller's `_id`, in store order. |
| Service.App.ListAttendees | backend/app.py:317-323 | 403 without a session. Otherwise exactly the attendee records carrying this event id, in store order, to any signed-in caller. |
| Registration.SchemaOf | backend/app.py:339-341 | A malformed id raises InvalidId. For a well-formed id, the first stored event with that id gives its `fields`, or KeyError when it has none (the projection is `{}`). TypeError is raised exactly when the id is well formed and no event has it. A schema is found only for such an event. |
| Registration.FieldItems | backend/app.py:341 | Iterating the schema yields a list's items, a string's characters or an object's keys, in order. Anything else raises TypeError, and nothing else raises. |
| Registration.BuildRecord | backend/app.py:340-342 | The loop returns exactly the record the schema fields and the body determine, or the exception of the first unusable field. |
| Registration.RecordFromContents | backend/app.py:340-342 | A completed record has one key per lower-cased schema field and nothing else new. Each key holds the body value of the last field lower-casing to it. |
| Registration.RecordFromFails | backend/app.py:341-342 | A failed loop stopped at the first schema item the body has no key for. That item raises TypeError when it is a list or object, and KeyError otherwise. |
| Registration.RecordOfSucceeds | backend/app.py:341-342 | The record is built iff every schema item is a string key present in the body. |
| Registration.AttendeeRecordShape | backend/app.py:340-345 | The record's keys are the lower-cased schema fields, `eid`, and `uid` when `session["user_id"]` is truthy (a schema field lower-casing to `uid` also gives that key). Each schema key holds the body value of its last field, except that `eid` always holds the event id and, when `session["user_id"]` is truthy, `uid` holds the session user's `_id`. |
| Registration.NamePhoneRecord | backend/app.py:340-345 | For schema `["Name", "Phone"]` a full body gives `{name, phone, eid}` without `uid`, and a body lacking `Phone` raises KeyError. |
| Registration.RegistrationQueryMatches | backend/app.py:359-361 | The unregister and check filter matches exactly the records with the caller's `uid` and this `eid`. |
| Service.App.Register | backend/app.py:328-351 | Without `isRegistered`: KeyError. With `isRegistered` exactly `true`: one record is appended and 201 answers with the schema, unless a lookup or the loop raises. With any other value: unregistering crashes without a session user, and otherwise `delete_one` runs with the caller's `uid` and this `eid`. |
| Service.RegisterTwice | backend/app.py:338-348 | Registering is not idempotent: a second identical request after a 201 appends a second record, identical but for `_id`. |
| Service.App.CheckRegister | backend/app.py:356-364 | The answer is `registered: true` iff a user is signed in, whatever the lookup finds. |
| Registration.CheckRegisterIgnoresLedger | backend/app.py:357-364 | As written, a signed-in caller is reported registered even for an empty ledger, where the intended check says no. |
| Registration.IsRegisteredMeaning | backend/app.py:357-362 | The intended check holds iff a user is signed in and some record carries the caller's `uid` and this `eid`. |
| Registration.UnregisterMissesRecord | backend/app.py:344-350 | As written, for a caller with an `_id` and a schema with no field lower-casing to `uid`, the record has no `uid` (login never sets `session["user_id"]`). So unregistering removes whatever it removed before and leaves the new record in place. |
| Registration.AttendeeRecordIntended | backend/app.py:340-345 | The corrected record carries `eid`, and carries the caller's `_id` as `uid` whenever a user is signed in. |
| Registration.RegisterThenUnregister | backend/app.py:340-362 | For a signed-in caller not yet registered for the event, the corrected record makes the intended check true, and unregistering then gives the ledger back. |
| Documents.Lower | backend/app.py:342 | `str.lower` keeps the length, maps each upper-case ASCII letter to its lower-case letter, and leaves every other character alone. |

## Left out

- Flask routing, `request.get_json`, `jsonify` and `parse_json`: request bodies are documents and replies are values. The model assumes the store issues `_id`s as lower-case hexadecimal strings standing in for BSON ObjectIds; the `newId` parameters are not constrained to that form, so an event inserted with another `_id` is not found by `Registration.SchemaOf`.
- `ObjectId(eid)`: modelled only as accepting exactly 24 hexadecimal digits and comparing them without regard to case.
- Document store internals:
  - No indexes, and no unique `_id` index.
  - No atomicity.
  - No projection mechanics beyond the `fields` lookup.
  - Equality does not reach into array fields: a filter value is compared to the whole field.
  - A filter value that is an object is compared literally. The store would read a body value such as `{"$gt": ""}` or `{"$exists": true}` as a query operator.
- Service.LoginGrants: holds only for an `email` that is not an object of query operators, since the store compares operator objects literally. With `{"$gt": ""}` the real login selects the first user with any string email.
- Service.SignupAccepts: holds only for an `email` that is not an object of query operators, since the store compares operator objects literally. With `{"$exists": true}` the real signup answers "User already exists!" whenever any user is stored.
- `$regex` semantics: the matcher and the store's test of whether a pattern compiles are parameters, and only the five-field `$or` structure is modelled.
- bcrypt: `generate_password_hash` and `check_password_hash` are uninterpreted functions, and the random salt is a parameter. A non-string candidate password raises TypeError in the model, but the exception bcrypt raises for a non-string stored hash is not modelled.
- Mail sending (`Message`, `mail.send`) and the mail configuration are I/O. The model assumes sending succeeds. If it fails, the real route answers 500 after the user is already stored, which `Service.App.Signup` does not capture.
- `datetime.utcnow()`: the timestamp is a parameter.
- `forgot_password` changes no state and is not modelled. Its field check is the same loop as `Requests.CheckRequired`.
- `my_events` is unimplemented in the source, and `check_user` is not part of this model.
- Requests are handled one at a time. Concurrent double submission is not modelled.
- Floating-point JSON numbers are not modelled: `Int` is the only number.
- JSON objects with duplicate keys are not modelled: `len` of an object counts its entries as written.
- Documents.Lower: lower-cases ASCII letters only. Python's `str.lower` also folds other Unicode letters.

## Findings

| source | as written | input that shows it | evidently intended | confidence | as-written member | corrected member |
|---|---|---|---|---|---|---|
| backend/app.py:357-364 | `check_register` returns `registered: true` for every signed-in caller and never looks at the lookup result. | Any signed-in user and an event with no attendee records. | `true` only when a record with the caller's `uid` and this `eid` exists. | not executed | Registration.CheckRegisterIgnoresLedger | Registration.IsRegisteredMeaning |
| backend/app.py:344-350 | `register` attaches `uid` only when `session["user_id"]` is truthy, and no handler ever sets it. Unregistering filters on `uid`, so, unless a schema field lower-cases to `uid`, it never removes the caller's record. | A signed-in user with an `_id` registers for an event whose schema is `["Name", "Phone"]` and then unregisters: the record is still in the ledger. | `uid` is attached whenever a user is signed in, so that unregistering removes the record. | not executed | Registration.UnregisterMissesRecord | Registration.RegisterThenUnregister |

`Service.App` keeps both behaviours as written. The corrected definitions
are `Registration.IsRegistered` and `Registration.AttendeeRecordIntended`,
and the lemmas above are proved about them.
