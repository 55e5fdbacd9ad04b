/** The document store as the backend sees it: named collections of
    documents in natural order, the `find_one` and `$in` queries the core
    issues, the three city collections, and `ObjectId` parsing. The store
    itself is a collaborator; only the query semantics the core relies on
    are modelled. */
module Store {
  import opened Wrappers
  import opened PyValues
  import opened Text
  import Lists

  /** Every collection by name. A collection absent from the map is empty,
      as an unused name is in the store. */
  type Db = map<string, seq<Document>>

  function Collection(db: Db, name: string): seq<Document> {
    if name in db then db[name] else []
  }

  /** `restaurants_collections`: the city names that have a restaurant
      collection, and its name. */
  const CityCollections: map<string, string> :=
    map["Rome" := "rome_restaurants", "Paris" := "paris_restaurants", "London" := "london_restaurants"]

  /** The exceptions the core raises or lets through. */
  datatype Failure =
    | ValueError(message: string)
    | TypeError         // iterating a non-iterable, hashing a list or dict
    | AttributeError    // a method called on None
    | IndexError
    | InvalidId         // `ObjectId(s)` on a malformed str
    | ParseError(cause: ParseFailure)  // an exception of a Python literal parser
    | ConversionError   // `int(v)` on a value it cannot convert
    | InvalidDocument   // inserting a dict with a key that is not a str

  /** The position of the first document whose field equals `value`, or
      -1. */
  function FirstMatch(docs: seq<Document>, field: string, value: Value): (k: int)
    ensures -1 <= k < |docs|
  {
    if |docs| == 0 then -1
    else if Get(docs[0], field) == Some(value) then 0
    else
      var k := FirstMatch(docs[1..], field, value);
      if k < 0 then -1 else k + 1
  }

  /** FirstMatch finds the first match, and -1 means there is none. */
  lemma {:induction false} FirstMatchFirst(docs: seq<Document>, field: string, value: Value)
    ensures FirstMatch(docs, field, value) >= 0 ==> Get(docs[FirstMatch(docs, field, value)], field) == Some(value)
    ensures forall j :: 0 <= j < |docs| && (FirstMatch(docs, field, value) < 0 || j < FirstMatch(docs, field, value)) ==>
              Get(docs[j], field) != Some(value)
  {
    if |docs| > 0 && Get(docs[0], field) != Some(value) {
      FirstMatchFirst(docs[1..], field, value);
      assert forall j :: 0 < j < |docs| ==> docs[j] == docs[1..][j - 1];
    }
  }

  /** `collection.find_one({field: value})`: the first document whose field
      equals `value`, or None. */
  function FindOne(docs: seq<Document>, field: string, value: Value): (r: Option<Document>)
    ensures r.Some? <==> FirstMatch(docs, field, value) >= 0
    ensures r.Some? ==> r.value == docs[FirstMatch(docs, field, value)]
  {
    var k := FirstMatch(docs, field, value);
    if k < 0 then None else Some(docs[k])
  }

  /** What FindOne finds: some document matches exactly when one is
      returned, and the one returned is the first that matches. */
  lemma FindOneFirst(docs: seq<Document>, field: string, value: Value)
    ensures FindOne(docs, field, value).Some? <==> exists i :: 0 <= i < |docs| && Get(docs[i], field) == Some(value)
    ensures FindOne(docs, field, value).Some? ==>
              exists i :: 0 <= i < |docs| && docs[i] == FindOne(docs, field, value).value && Get(docs[i], field) == Some(value)
                          && forall j :: 0 <= j < i ==> Get(docs[j], field) != Some(value)
  {
    FirstMatchFirst(docs, field, value);
  }

  predicate IsHexDigit(c: char) {
    '0' <= c <= '9' || 'a' <= c <= 'f' || 'A' <= c <= 'F'
  }

  /** What `ObjectId(v)` makes of a value: the id it stands for, a newly
      generated id (for None), or an exception. */
  datatype IdParse = IdHex(hex: OidHex) | FreshId | BadId

  /** `ObjectId(v)`: an ObjectId is itself, a str of 24 hexadecimal digits
      is parsed (and prints back in lower case), None generates a new id,
      and everything else raises. A generated id is new, so no stored
      document carries it. */
  function ObjectIdOf(v: Value): (r: IdParse)
    ensures v.Oid? ==> r == IdHex(v.hex)
    ensures v.Str? ==> (r.IdHex? <==> |v.s| == 24 && forall i :: 0 <= i < |v.s| ==> IsHexDigit(v.s[i]))
    ensures v.Str? && r.IdHex? ==> r.hex == Lower(v.s)
    ensures r.FreshId? <==> v.Null?
    ensures !v.Oid? && !v.Str? && !v.Null? ==> r.BadId?
  {
    match v
    case Oid(h) => IdHex(h)
    case Str(s) =>
      if |s| == 24 && forall i :: 0 <= i < |s| ==> IsHexDigit(s[i]) then IdHex(Lower(s)) else BadId
    case Null => FreshId
    case _ => BadId
  }

  /** The exception `ObjectId(v)` raises on a value it refuses: InvalidId
      for a str, TypeError for anything else. */
  function IdFailure(v: Value): (e: Failure)
    ensures e == InvalidId <==> v.Str?
  {
    if v.Str? then InvalidId else TypeError
  }

  /** The hex digits of a document's `_id`, whether it is still an ObjectId
      or has already been turned into its string. */
  function IdOf(d: Document): Option<OidHex> {
    match Get(d, "_id")
    case Some(v) => if ObjectIdOf(v).IdHex? then Some(ObjectIdOf(v).hex) else None
    case None => None
  }

  /** `collection.find({"_id": {"$in": ids}})`: the documents of the
      collection whose ObjectId is one of `ids`, taken in the collection's
      order, which MongoDB itself does not promise. */
  function FindByIds(docs: seq<Document>, ids: set<OidHex>): (r: seq<Document>)
    ensures |r| <= |docs|
    ensures forall d :: d in r <==> d in docs && exists h :: h in ids && Get(d, "_id") == Some(Oid(h))
    ensures Lists.Subseq(r, docs)
  {
    if |docs| == 0 then []
    else
      var rest := FindByIds(docs[1..], ids);
      assert forall d :: d in docs <==> d == docs[0] || d in docs[1..];
      if exists h :: h in ids && Get(docs[0], "_id") == Some(Oid(h)) then [docs[0]] + rest else rest
  }

  /** The document without its entries under `k`. */
  function Without(d: Document, k: string): (r: Document)
    ensures !HasKey(r, k)
    ensures forall j :: j != k ==> Get(r, j) == Get(d, j)
    ensures !HasKey(d, k) ==> r == d
  {
    if |d| == 0 then []
    else if d[0].key == k then Without(d[1..], k)
    else
      var rest := Without(d[1..], k);
      var r := [d[0]] + rest;
      assert r[1..] == rest;
      r
  }

  /** The document `insert_one(doc)` stores: a caller's `_id` is kept and
      otherwise the generated one is added, and the BSON encoding writes a
      top-level `_id` before every other field, which keep their order. */
  function Inserted(doc: Document, id: OidHex): (r: Document)
    ensures |r| > 0 && r[0].key == "_id" && !HasKey(r[1..], "_id")
    ensures Get(r, "_id") == if HasKey(doc, "_id") then Get(doc, "_id") else Some(Oid(id))
    ensures forall k :: k != "_id" ==> Get(r, k) == Get(doc, k)
    ensures !HasKey(doc, "_id") ==> r == [Entry("_id", Oid(id))] + doc
  {
    var v := if HasKey(doc, "_id") then Get(doc, "_id").value else Oid(id);
    var r := [Entry("_id", v)] + Without(doc, "_id");
    assert r[1..] == Without(doc, "_id");
    r
  }

  /** The users and preferences collections, which the routes and the user
      service write to. */
  class Database {
    var collections: Db

    constructor (initial: Db)
      ensures collections == initial
    {
      collections := initial;
    }

    /** `insert_one(doc)` with the id the store would generate: the
        document as `Inserted` stores it goes last in the collection. */
    method InsertOne(name: string, doc: Document, id: OidHex)
      modifies this
      ensures collections == old(collections)[name := Collection(old(collections), name) + [Inserted(doc, id)]]
    {
      collections := collections[name := Collection(collections, name) + [Inserted(doc, id)]];
    }

    /** `update_one({"_id": id}, {"$set": {field: v}}, upsert=True)`: the
        first document with that id gets the field; without one, a new
        document `{_id: id, field: v}` is inserted. */
    method UpsertField(name: string, id: OidHex, field: string, v: Value)
      requires field != "_id"
      modifies this
      ensures collections == old(collections)[name := Upserted(Collection(old(collections), name), id, field, v)]
    {
      collections := collections[name := Upserted(Collection(collections, name), id, field, v)];
    }
  }

  /** The position of the first document with the given id, or -1. */
  function IndexOfId(docs: seq<Document>, id: OidHex): (k: int)
    ensures -1 <= k < |docs|
    ensures k >= 0 ==> Get(docs[k], "_id") == Some(Oid(id))
    ensures forall j :: 0 <= j < |docs| && (k < 0 || j < k) ==> Get(docs[j], "_id") != Some(Oid(id))
  {
    if |docs| == 0 then -1
    else if Get(docs[0], "_id") == Some(Oid(id)) then 0
    else
      var k := IndexOfId(docs[1..], id);
      assert forall j :: 0 < j < |docs| ==> docs[j] == docs[1..][j - 1];
      if k < 0 then -1 else k + 1
  }

  /** The collection after an upserting `$set` of one field other than
      `_id`: the first document with the id gets the field, every other
      document is unchanged, and a missing id is inserted last. */
  function Upserted(docs: seq<Document>, id: OidHex, field: string, v: Value): (r: seq<Document>)
    requires field != "_id"
    ensures IndexOfId(docs, id) >= 0 ==> |r| == |docs|
    ensures IndexOfId(docs, id) >= 0 ==> r[IndexOfId(docs, id)] == Set(docs[IndexOfId(docs, id)], field, v)
    ensures IndexOfId(docs, id) >= 0 ==>
              forall i :: 0 <= i < |docs| && i != IndexOfId(docs, id) ==> r[i] == docs[i]
    ensures IndexOfId(docs, id) < 0 ==> r == docs + [[Entry("_id", Oid(id)), Entry(field, v)]]
    ensures 0 <= IndexOfId(r, id) && Get(r[IndexOfId(r, id)], field) == Some(v)
  {
    var k := IndexOfId(docs, id);
    if k >= 0 then
      var r := docs[k := Set(docs[k], field, v)];
      assert Get(r[k], "_id") == Some(Oid(id));
      assert forall j :: 0 <= j < k ==> r[j] == docs[j];
      r
    else
      var r := docs + [[Entry("_id", Oid(id)), Entry(field, v)]];
      assert forall j :: 0 <= j < |docs| ==> r[j] == docs[j];
      assert Get(r[|docs|], "_id") == Some(Oid(id));
      r
  }

  /** After an upsert the document with the id is the one that was
      updated, or the one inserted last. */
  lemma UpsertedIndex(docs: seq<Document>, id: OidHex, field: string, v: Value)
    requires field != "_id"
    ensures IndexOfId(Upserted(docs, id, field, v), id) == if IndexOfId(docs, id) >= 0 then IndexOfId(docs, id) else |docs|
  {
    var r := Upserted(docs, id, field, v);
    var k := IndexOfId(docs, id);
    var k2 := IndexOfId(r, id);
    if k >= 0 {
      assert Get(r[k], "_id") == Some(Oid(id));
    } else {
      assert r[|docs|] == [Entry("_id", Oid(id)), Entry(field, v)];
    }
  }

  /** The document with the id carries the upserted field, and every
      other field it had. */
  lemma UpsertedFields(docs: seq<Document>, id: OidHex, field: string, v: Value, f: string)
    requires field != "_id" && f != field && IndexOfId(docs, id) >= 0
    ensures var r := Upserted(docs, id, field, v);
            Get(r[IndexOfId(r, id)], f) == Get(docs[IndexOfId(docs, id)], f)
  {
    UpsertedIndex(docs, id, field, v);
  }
}
