/** The document store as the handlers use it: a collection is a sequence of
    documents in insertion (natural) order, and a query is the filter
    document passed to `find`, `find_one` or `delete_one`. */
module Store {
  import opened Documents

  /** The store's case-insensitive `$regex` match of a pattern against a text. */
  type Matcher = (string, string) -> bool

  datatype Query =
    | All                                              // `{}`
    | Eq(key: string, value: Value)                    // `{key: value}`, `{key: {"$eq": value}}`
    | Ne(key: string, value: Value)                    // `{key: {"$ne": value}}`
    | Regex(key: string, pattern: string, re: Matcher) // `{key: {"$regex": pattern, "$options": "i"}}`
    | And(left: Query, right: Query)                   // two keys of one filter document
    | Or(left: Query, right: Query)                    // `{"$or": [left, right]}`

  /** Equality on one field: a null value also matches a document that lacks the field. */
  predicate FieldEq(d: Doc, key: string, v: Value)
  {
    if v == Null then key !in d || d[key] == Null else key in d && d[key] == v
  }

  /** A regular expression applies to a string field, or to the strings of a list field. */
  predicate FieldRegex(d: Doc, key: string, pattern: string, re: Matcher)
  {
    key in d &&
    match d[key]
    case Str(t) => re(pattern, t)
    case List(xs) => exists i :: 0 <= i < |xs| && xs[i].Str? && re(pattern, xs[i].s)
    case _ => false
  }

  predicate Matches(d: Doc, q: Query)
  {
    match q
    case All => true
    case Eq(k, v) => FieldEq(d, k, v)
    case Ne(k, v) => !FieldEq(d, k, v)
    case Regex(k, p, re) => FieldRegex(d, k, p, re)
    case And(a, b) => Matches(d, a) && Matches(d, b)
    case Or(a, b) => Matches(d, a) || Matches(d, b)
  }

  /** A document's own value of a field (`d.get(key)`) always matches it. */
  lemma OwnFieldMatches(d: Doc, key: string)
    ensures FieldEq(d, key, Get(d, key))
  {
  }

  /** `list(col.find(q))`. */
  function Find(docs: seq<Doc>, q: Query): seq<Doc>
  {
    if docs == [] then []
    else (if Matches(docs[0], q) then [docs[0]] else []) + Find(docs[1..], q)
  }

  /** `find` returns exactly the matching documents ... */
  lemma {:induction false} FindMembers(docs: seq<Doc>, q: Query)
    ensures forall d :: d in Find(docs, q) <==> d in docs && Matches(d, q)
  {
    if docs != [] {
      FindMembers(docs[1..], q);
      assert docs == [docs[0]] + docs[1..];
    }
  }

  /** ... in store order: it distributes over concatenation of the collection ... */
  lemma {:induction false} FindAppend(a: seq<Doc>, b: seq<Doc>, q: Query)
    ensures Find(a + b, q) == Find(a, q) + Find(b, q)
  {
    if a == [] {
      assert a + b == b;
    } else {
      assert (a + b)[1..] == a[1..] + b;
      FindAppend(a[1..], b, q);
    }
  }

  /** ... so a match-all query returns the whole collection unchanged. */
  lemma {:induction false} FindAllIsEverything(docs: seq<Doc>)
    ensures Find(docs, All) == docs
  {
    if docs != [] {
      FindAllIsEverything(docs[1..]);
    }
  }

  /** Index of the document `find_one` returns: the first match in store order. */
  function FirstMatch(docs: seq<Doc>, q: Query): (r: Option<nat>)
    ensures r.None? <==> forall i :: 0 <= i < |docs| ==> !Matches(docs[i], q)
    ensures r.Some? ==> r.value < |docs| && Matches(docs[r.value], q)
    ensures r.Some? ==> forall j :: 0 <= j < r.value ==> !Matches(docs[j], q)
  {
    if docs == [] then None
    else if Matches(docs[0], q) then Some(0)
    else match FirstMatch(docs[1..], q)
      case None => None
      case Some(i) => Some(i + 1)
  }

  /** `col.find_one(q)`: None when nothing matches. */
  function FindOne(docs: seq<Doc>, q: Query): Option<Doc>
  {
    match FirstMatch(docs, q)
    case None => None
    case Some(i) => Some(docs[i])
  }

  /** `insert_one` gives the document a fresh `_id` unless it already has one. */
  function WithId(d: Doc, newId: string): (r: Doc)
    ensures r.Keys == d.Keys + {"_id"}
    ensures forall k :: k in d ==> r[k] == d[k]
  {
    if "_id" in d then d else d["_id" := Str(newId)]
  }

  /** `col.insert_one(d)`: appends one document and touches nothing else. */
  function InsertOne(docs: seq<Doc>, d: Doc, newId: string): (r: seq<Doc>)
    ensures |r| == |docs| + 1 && r[..|docs|] == docs && r[|docs|] == WithId(d, newId)
  {
    docs + [WithId(d, newId)]
  }

  /** `col.delete_one(q)`: removes the first matching document, if any. */
  function DeleteOne(docs: seq<Doc>, q: Query): seq<Doc>
  {
    match FirstMatch(docs, q)
    case None => docs
    case Some(i) => docs[..i] + docs[i + 1..]
  }

  /** `delete_one` removes at most one document, only a matching one, keeps
      every other document with its multiplicity, and changes nothing when no
      document matches. */
  lemma DeleteOneRemovesAtMostOne(docs: seq<Doc>, q: Query)
    ensures FindOne(docs, q).None? ==> DeleteOne(docs, q) == docs
    ensures FindOne(docs, q).Some? ==>
      |DeleteOne(docs, q)| == |docs| - 1 &&
      multiset(DeleteOne(docs, q)) + multiset{FindOne(docs, q).value} == multiset(docs)
    ensures forall d :: !Matches(d, q) ==> multiset(DeleteOne(docs, q))[d] == multiset(docs)[d]
  {
    match FirstMatch(docs, q)
    case None =>
    case Some(i) =>
      var r := DeleteOne(docs, q);
      assert r == docs[..i] + docs[i + 1..];
      assert docs == docs[..i] + [docs[i]] + docs[i + 1..];
      assert multiset(docs) == multiset(docs[..i]) + multiset{docs[i]} + multiset(docs[i + 1..]);
      assert multiset(r) == multiset(docs[..i]) + multiset(docs[i + 1..]);
  }

  /** A query that matched nothing before an insertion finds the inserted document. */
  lemma FindOneAfterInsert(docs: seq<Doc>, d: Doc, newId: string, q: Query)
    requires FindOne(docs, q).None?
    requires Matches(WithId(d, newId), q)
    ensures FindOne(InsertOne(docs, d, newId), q) == Some(WithId(d, newId))
  {
    var all := InsertOne(docs, d, newId);
    assert forall i :: 0 <= i < |docs| ==> all[i] == docs[i];
    assert FirstMatch(all, q) == Some(|docs|);
  }

  /** Deleting with a query the inserted document does not match deletes as
      before and leaves the inserted document last. */
  lemma DeleteOneAfterInsert(docs: seq<Doc>, d: Doc, newId: string, q: Query)
    requires !Matches(WithId(d, newId), q)
    ensures DeleteOne(InsertOne(docs, d, newId), q) == DeleteOne(docs, q) + [WithId(d, newId)]
  {
    var w := WithId(d, newId);
    FirstMatchAppend(docs, w, q);
    match FirstMatch(docs, q)
    case None =>
    case Some(i) =>
      SlicesOfAppend(docs, w, i);
  }

  /** Appending a document does not move the first match of a query. */
  lemma {:induction false} FirstMatchAppend(docs: seq<Doc>, w: Doc, q: Query)
    ensures FirstMatch(docs + [w], q) ==
      if FirstMatch(docs, q).Some? then FirstMatch(docs, q)
      else if Matches(w, q) then Some(|docs|)
      else None
  {
    if docs == [] {
      assert docs + [w] == [w];
    } else {
      assert (docs + [w])[1..] == docs[1..] + [w];
      FirstMatchAppend(docs[1..], w, q);
    }
  }

  lemma SlicesOfAppend<T>(a: seq<T>, x: T, i: nat)
    requires i < |a|
    ensures (a + [x])[..i] == a[..i]
    ensures (a + [x])[i + 1..] == a[i + 1..] + [x]
  {
  }

  /** Deleting with the query a just-inserted document matches, when nothing
      before it matched, gives the collection back. */
  lemma InsertThenDelete(docs: seq<Doc>, d: Doc, newId: string, q: Query)
    requires forall i :: 0 <= i < |docs| ==> !Matches(docs[i], q)
    requires Matches(WithId(d, newId), q)
    ensures DeleteOne(InsertOne(docs, d, newId), q) == docs
  {
    var all := InsertOne(docs, d, newId);
    assert FirstMatch(all, q) == Some(|docs|);
    assert all[..|docs|] == docs;
  }
}
