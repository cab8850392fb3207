/** The required-field check every form handler starts with: walk the list of
    required keys and answer with the first one the request body lacks. */
module Requests {
  import opened Documents

  const SignupFields: seq<string> := [
    "coordinates", "description", "name", "password", "confirmPassword",
    "languages", "topics", "email", "phone", "organization", "status",
    "industry", "age", "gender", "discoverable"
  ]

  const LoginFields: seq<string> := ["email", "password"]

  const CreateEventFields: seq<string> := [
    "description", "name", "language", "topics", "fields", "email", "phone",
    "status", "industry", "minAge", "maxAge", "startDate", "endDate",
    "coordinates", "venue", "location", "url", "genders"
  ]

  function MissingFieldMessage(field: string): string
  {
    "Missing required field: " + field
  }

  /** Position of the first required key the body lacks, in list order. */
  function FirstMissing(data: Doc, required: seq<string>): (r: Option<nat>)
    ensures r.None? <==> HasAll(data, required)
    ensures r.Some? ==> r.value < |required| && required[r.value] !in data
    ensures r.Some? ==> forall j :: 0 <= j < r.value ==> required[j] in data
  {
    if required == [] then None
    else if required[0] !in data then Some(0)
    else match FirstMissing(data, required[1..])
      case None => None
      case Some(i) => Some(i + 1)
  }

  /** Every key of a list is in the body. */
  predicate HasAll(data: Doc, required: seq<string>)
  {
    forall i :: 0 <= i < |required| ==> required[i] in data
  }

  /** Spells out, key by key, what passing the signup check means. */
  lemma SignupFieldsPresent(data: Doc)
    requires HasAll(data, SignupFields)
    ensures "coordinates" in data && "description" in data && "name" in data
    ensures "password" in data && "confirmPassword" in data && "languages" in data
    ensures "topics" in data && "email" in data && "phone" in data
    ensures "organization" in data && "status" in data && "industry" in data
    ensures "age" in data && "gender" in data && "discoverable" in data
  {
    var f := SignupFields;
    assert f[0] in data && f[1] in data && f[2] in data && f[3] in data && f[4] in data;
    assert f[5] in data && f[6] in data && f[7] in data && f[8] in data && f[9] in data;
    assert f[10] in data && f[11] in data && f[12] in data && f[13] in data && f[14] in data;
  }

  lemma LoginFieldsPresent(data: Doc)
    requires HasAll(data, LoginFields)
    ensures "email" in data && "password" in data
  {
    assert LoginFields[0] in data && LoginFields[1] in data;
  }

  /** Spells out, key by key, what passing the create-event check means. */
  lemma CreateEventFieldsPresent(data: Doc)
    requires HasAll(data, CreateEventFields)
    ensures "description" in data && "name" in data && "language" in data
    ensures "topics" in data && "fields" in data && "email" in data
    ensures "phone" in data && "status" in data && "industry" in data
    ensures "minAge" in data && "maxAge" in data && "startDate" in data
    ensures "endDate" in data && "coordinates" in data && "venue" in data
    ensures "location" in data && "url" in data && "genders" in data
  {
    var f := CreateEventFields;
    assert f[0] in data && f[1] in data && f[2] in data && f[3] in data && f[4] in data && f[5] in data;
    assert f[6] in data && f[7] in data && f[8] in data && f[9] in data && f[10] in data && f[11] in data;
    assert f[12] in data && f[13] in data && f[14] in data && f[15] in data && f[16] in data && f[17] in data;
  }

  /** The `for field in required_fields: if field not in data: return ...` loop. */
  method CheckRequired(data: Doc, required: seq<string>) returns (missing: Option<nat>)
    ensures missing == FirstMissing(data, required)
  {
    for i := 0 to |required|
      invariant forall j :: 0 <= j < i ==> required[j] in data
    {
      if required[i] !in data {
        return Some(i);
      }
    }
    return None;
  }
}
