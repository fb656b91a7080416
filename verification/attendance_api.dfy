/**
 * api/attendance.py: attendance records kept in a MongoDB collection and
 * served over GET (list), POST (upsert on date, name, unit and jabatan),
 * PUT (update by `_id`) and DELETE (remove by `_id`). The collection is the
 * `docs` field of an `AttendanceStore`, in its natural (insertion) order;
 * `datetime.utcnow()` and the driver's fresh ObjectId are parameters.
 */
module AttendanceApi {
  import opened Wrappers
  import opened Decimal
  import opened Strings

  /** A BSON value as these handlers meet it. `Oid` holds 24 lower-case hex digits. */
  datatype Value = Null | Bool(b: bool) | Num(n: int) | Str(s: string) | Oid(hex: string) | Stamp(t: int)

  type Doc = map<string, Value>

  /** A field as a query sees it: a missing field reads as null. */
  function Field(d: Doc, k: string): Value {
    if k in d then d[k] else Null
  }

  /** What `json.loads` can produce as a field value: no ObjectId and no datetime. */
  predicate IsJson(d: Doc) {
    forall k :: k in d ==> !d[k].Oid? && !d[k].Stamp?
  }

  /** Python truthiness (`not record_id`). */
  predicate Truthy(v: Value) {
    match v
    case Null => false
    case Bool(b) => b
    case Num(n) => n != 0
    case Str(s) => s != ""
    case Oid(_) => true
    case Stamp(_) => true
  }

  predicate IsHex(c: char) {
    '0' <= c <= '9' || 'a' <= c <= 'f' || 'A' <= c <= 'F'
  }

  function LowerHex(c: char): char {
    if 'A' <= c <= 'F' then (c as int + 32) as char else c
  }

  /** `ObjectId(record_id)`: a 24-digit hex string names an id; anything else raises. */
  function ToObjectId(v: Value): (r: Option<Value>)
    ensures r.Some? ==> r.value.Oid? && |r.value.hex| == 24
    ensures r.Some? <==> (v.Oid? && |v.hex| == 24) || (v.Str? && |v.s| == 24 && forall i :: 0 <= i < 24 ==> IsHex(v.s[i]))
  {
    match v
    case Oid(h) => if |h| == 24 then Some(v) else None
    case Str(s) =>
      if |s| == 24 && forall i :: 0 <= i < 24 ==> IsHex(s[i]) then
        Some(Oid(seq(24, i requires 0 <= i < 24 => LowerHex(s[i]))))
      else None
    case _ => None
  }

  /** Python's `str()` of an `_id`. */
  function StrOf(v: Value): string
    requires !v.Stamp?
  {
    match v
    case Null => "None"
    case Bool(b) => if b then "True" else "False"
    case Num(n) => IntToString(n)
    case Str(s) => s
    case Oid(h) => h
  }

  datatype Error = NotConfigured | RecordIdRequired | RecordNotFound | Raised
  /** The JSON answer: a message (and id), a list of documents, or `success: False` with an error. */
  datatype Outcome = Done(message: string, id: Option<string>) | Listing(data: seq<Doc>) | Failed(error: Error)
  /** The answer and the collection afterwards. */
  datatype Step = Step(outcome: Outcome, docs: seq<Doc>)

  /** Every document has an `_id` that no other document has (MongoDB's unique `_id` index). */
  predicate IdsValid(docs: seq<Doc>) {
    && (forall i :: 0 <= i < |docs| ==> "_id" in docs[i] && !docs[i]["_id"].Stamp?)
    && (forall i, j :: 0 <= i < j < |docs| ==> docs[i]["_id"] != docs[j]["_id"])
  }

  /** `find_one({'_id': id})` / `update_one` / `delete_one`: the first document with that id, or -1. */
  function IdIndex(docs: seq<Doc>, id: Value): (k: int)
    ensures -1 <= k < |docs|
    ensures k >= 0 ==> Field(docs[k], "_id") == id && forall j :: 0 <= j < k ==> Field(docs[j], "_id") != id
    ensures k == -1 <==> forall j :: 0 <= j < |docs| ==> Field(docs[j], "_id") != id
  {
    if docs == [] then -1
    else if Field(docs[0], "_id") == id then 0
    else
      var k := IdIndex(docs[1..], id);
      if k == -1 then -1 else k + 1
  }

  // ----- POST -----

  /** The four fields of the upsert key. */
  predicate HasKey(data: Doc) {
    "date" in data && "name" in data && "unit" in data && "jabatan" in data
  }

  /** The document matches `{'date': …, 'name': …, 'unit': …, 'jabatan': …}` of `data`. */
  predicate KeyMatches(doc: Doc, data: Doc)
    requires HasKey(data)
  {
    && Field(doc, "date") == data["date"] && Field(doc, "name") == data["name"]
    && Field(doc, "unit") == data["unit"] && Field(doc, "jabatan") == data["jabatan"]
  }

  /** The `find_one` of the upsert: the first document with the posted key, or -1. */
  function KeyIndex(docs: seq<Doc>, data: Doc): (k: int)
    requires HasKey(data)
    ensures -1 <= k < |docs|
    ensures k >= 0 ==> KeyMatches(docs[k], data) && forall j :: 0 <= j < k ==> !KeyMatches(docs[j], data)
    ensures k == -1 <==> forall j :: 0 <= j < |docs| ==> !KeyMatches(docs[j], data)
  {
    if docs == [] then -1
    else if KeyMatches(docs[0], data) then 0
    else
      var k := KeyIndex(docs[1..], data);
      if k == -1 then -1 else k + 1
  }

  /** Two documents carry the same upsert key. */
  predicate SameKey(a: Doc, b: Doc) {
    && Field(a, "date") == Field(b, "date") && Field(a, "name") == Field(b, "name")
    && Field(a, "unit") == Field(b, "unit") && Field(a, "jabatan") == Field(b, "jabatan")
  }

  predicate KeysUnique(docs: seq<Doc>) {
    forall i, j :: 0 <= i < j < |docs| ==> !SameKey(docs[i], docs[j])
  }

  /**
   * `do_POST` once the store is configured. `body` is the parsed JSON body
   * (`None` when it is not a JSON object), `now` is `utcnow()` and `freshId`
   * the ObjectId the driver would generate.
   */
  function Post(docs: seq<Doc>, body: Option<Doc>, now: int, freshId: Value): (r: Step)
    requires IdsValid(docs) && freshId.Oid?
    requires body.Some? ==> IsJson(body.value)
    ensures r.outcome.Failed? ==> r.docs == docs && r.outcome.error == Raised
    ensures body.None? || !HasKey(body.value) ==> r == Step(Failed(Raised), docs)
  {
    if body.None? || !HasKey(body.value) then Step(Failed(Raised), docs)
    else
      var data := body.value;
      var k := KeyIndex(docs, data);
      if k >= 0 then
        var id := Field(docs[k], "_id");
        // `$set` may not change `_id`: the server refuses the whole update.
        if "_id" in data && data["_id"] != id then Step(Failed(Raised), docs)
        else Step(Done("Record updated", Some(StrOf(id))), docs[k := docs[k] + data])
      else
        var stamped := data["created_at" := Stamp(now)];
        var doc := if "_id" in stamped then stamped else stamped["_id" := freshId];
        // a taken `_id` is a duplicate-key error
        if IdIndex(docs, doc["_id"]) >= 0 then Step(Failed(Raised), docs)
        else Step(Done("Record created", Some(StrOf(doc["_id"]))), docs + [doc])
  }

  /**
   * An upsert on an existing key succeeds exactly when the body does not try
   * to change that document's `_id`; it then overwrites the posted fields,
   * keeps the other fields, inserts nothing and answers with the existing id.
   */
  lemma PostUpdatesExisting(docs: seq<Doc>, data: Doc, now: int, freshId: Value)
    requires IdsValid(docs) && freshId.Oid?
    requires IsJson(data) && HasKey(data) && KeyIndex(docs, data) >= 0
    ensures var k := KeyIndex(docs, data);
      Post(docs, Some(data), now, freshId).outcome.Done? <==> ("_id" !in data || data["_id"] == docs[k]["_id"])
    ensures var k := KeyIndex(docs, data);
      var r := Post(docs, Some(data), now, freshId);
      r.outcome.Done? ==>
      && |r.docs| == |docs|
      && (forall j :: 0 <= j < |docs| && j != k ==> r.docs[j] == docs[j])
      && (forall f :: f in data ==> f in r.docs[k] && r.docs[k][f] == data[f])
      && (forall f :: f in docs[k] && f !in data ==> f in r.docs[k] && r.docs[k][f] == docs[k][f])
      && (forall f :: f in r.docs[k] ==> f in data || f in docs[k])
      && r.outcome == Done("Record updated", Some(StrOf(docs[k]["_id"])))
  {
    var k := KeyIndex(docs, data);
    var r := Post(docs, Some(data), now, freshId);
    assert Field(docs[k], "_id") == docs[k]["_id"];
    if r.outcome.Done? {
      assert r.docs == docs[k := docs[k] + data];
    }
  }

  /** The `_id` a created document gets: the posted one, or else the driver's. */
  function NewId(data: Doc, freshId: Value): (id: Value)
    ensures "_id" !in data ==> id == freshId
  {
    if "_id" in data then data["_id"] else freshId
  }

  /**
   * Without a matching key, the insert succeeds exactly when its `_id` is not
   * taken. The posted document is then appended with its creation time and
   * its `_id`, gains no other field, and the answer carries that id.
   */
  lemma PostCreates(docs: seq<Doc>, data: Doc, now: int, freshId: Value)
    requires IdsValid(docs) && freshId.Oid?
    requires IsJson(data) && HasKey(data) && KeyIndex(docs, data) == -1
    ensures Post(docs, Some(data), now, freshId).outcome.Done? <==> IdIndex(docs, NewId(data, freshId)) == -1
    ensures var r := Post(docs, Some(data), now, freshId);
      var id := NewId(data, freshId);
      r.outcome.Done? ==>
      && |r.docs| == |docs| + 1 && r.docs[..|docs|] == docs
      && r.outcome == Done("Record created", Some(StrOf(id)))
      && r.docs[|docs|]["_id"] == id
      && r.docs[|docs|]["created_at"] == Stamp(now)
      && r.docs[|docs|].Keys == data.Keys + {"created_at", "_id"}
      && (forall f :: f in data && f != "created_at" ==> f in r.docs[|docs|] && r.docs[|docs|][f] == data[f])
  {
    var r := Post(docs, Some(data), now, freshId);
    var stamped := data["created_at" := Stamp(now)];
    var doc := if "_id" in stamped then stamped else stamped["_id" := freshId];
    assert doc["_id"] == NewId(data, freshId);
    assert doc.Keys == data.Keys + {"created_at", "_id"};
    if r.outcome.Done? {
      assert r.docs == docs + [doc];
    }
  }

  /** POST keeps at most one document per (date, name, unit, jabatan). */
  lemma PostKeepsKeysUnique(docs: seq<Doc>, body: Option<Doc>, now: int, freshId: Value)
    requires IdsValid(docs) && freshId.Oid?
    requires body.Some? ==> IsJson(body.value)
    requires KeysUnique(docs)
    ensures KeysUnique(Post(docs, body, now, freshId).docs)
  {
    var r := Post(docs, body, now, freshId);
    if r.outcome.Done? {
      var data := body.value;
      var k := KeyIndex(docs, data);
      if k >= 0 {
        assert SameKey(r.docs[k], docs[k]);
        forall i, j | 0 <= i < j < |r.docs|
          ensures !SameKey(r.docs[i], r.docs[j])
        {
          if i == k {
            assert !SameKey(docs[k], docs[j]);
          } else if j == k {
            assert !SameKey(docs[i], docs[k]);
          }
        }
      } else {
        var doc := r.docs[|docs|];
        forall i, j | 0 <= i < j < |r.docs|
          ensures !SameKey(r.docs[i], r.docs[j])
        {
          if j == |docs| {
            assert !KeyMatches(docs[i], data);
          }
        }
      }
    }
  }

  /** POST keeps every `_id` present and unique. */
  lemma PostKeepsIdsValid(docs: seq<Doc>, body: Option<Doc>, now: int, freshId: Value)
    requires body.Some? ==> IsJson(body.value)
    requires IdsValid(docs) && freshId.Oid?
    ensures IdsValid(Post(docs, body, now, freshId).docs)
  {
    var r := Post(docs, body, now, freshId);
    if r.outcome.Done? {
      var data := body.value;
      var k := KeyIndex(docs, data);
      if k >= 0 {
        assert r.docs[k]["_id"] == docs[k]["_id"];
        forall i, j | 0 <= i < j < |r.docs|
          ensures r.docs[i]["_id"] != r.docs[j]["_id"]
        {
          if i == k {
            assert docs[k]["_id"] != docs[j]["_id"];
          } else if j == k {
            assert docs[i]["_id"] != docs[k]["_id"];
          }
        }
      } else {
        var doc := r.docs[|docs|];
        forall i, j | 0 <= i < j < |r.docs|
          ensures r.docs[i]["_id"] != r.docs[j]["_id"]
        {
          if j == |docs| {
            assert Field(docs[i], "_id") != doc["_id"];
          }
        }
      }
    }
  }

  // ----- PUT -----

  /** `do_PUT` once the store is configured. */
  function Put(docs: seq<Doc>, body: Option<Doc>, now: int): (r: Step)
    requires body.Some? ==> IsJson(body.value)
    ensures r.outcome.Failed? ==> r.docs == docs
    ensures body.Some? && !Truthy(Field(body.value, "_id")) ==> r == Step(Failed(RecordIdRequired), docs)
    ensures |r.docs| == |docs|
  {
    if body.None? then Step(Failed(Raised), docs)
    else
      var recordId := Field(body.value, "_id");
      var data := body.value - {"_id"};
      if !Truthy(recordId) then Step(Failed(RecordIdRequired), docs)
      else
        var update := data["updated_at" := Stamp(now)];
        match ToObjectId(recordId)
        case None => Step(Failed(Raised), docs)
        case Some(oid) =>
          var k := IdIndex(docs, oid);
          if k < 0 then Step(Failed(RecordNotFound), docs)
          else
            var merged := docs[k] + update;
            // `modified_count` is 0 when `$set` leaves the document as it was
            if merged != docs[k] then Step(Done("Record updated", None), docs[k := merged])
            else Step(Failed(RecordNotFound), docs)
  }

  /**
   * PUT changes at most the one document with the given id, never touches
   * any `_id`, and succeeds exactly when that document changed.
   */
  lemma PutChangesOnlyItsDocument(docs: seq<Doc>, data: Doc, now: int)
    requires IsJson(data)
    ensures var r := Put(docs, Some(data), now);
      && (forall j :: 0 <= j < |docs| ==> Field(r.docs[j], "_id") == Field(docs[j], "_id"))
      && (r.outcome.Done? <==> r.docs != docs)
      && (r.outcome.Done? ==> exists k :: && 0 <= k < |docs| && Some(Field(docs[k], "_id")) == ToObjectId(data["_id"])
                                          && "updated_at" in r.docs[k] && r.docs[k]["updated_at"] == Stamp(now)
                                          && forall j :: 0 <= j < |docs| && j != k ==> r.docs[j] == docs[j])
  {
    var r := Put(docs, Some(data), now);
    if r.outcome.Done? {
      var k := IdIndex(docs, ToObjectId(data["_id"]).value);
      assert r.docs[k] != docs[k];
    }
  }

  /**
   * A well-formed id that no document has, or a `$set` that leaves the
   * document as it was, answers "Record not found"; the collection stays.
   */
  lemma PutUnknownId(docs: seq<Doc>, data: Doc, now: int)
    requires IsJson(data) && Truthy(Field(data, "_id")) && ToObjectId(Field(data, "_id")).Some?
    ensures var r := Put(docs, Some(data), now);
      && (r.outcome.Failed? ==> r == Step(Failed(RecordNotFound), docs))
      && (IdIndex(docs, ToObjectId(Field(data, "_id")).value) < 0 ==> r == Step(Failed(RecordNotFound), docs))
  {
  }

  /**
   * What a successful PUT writes into its document: every posted field but
   * `_id`, `updated_at` as now, and every other field as it was.
   */
  lemma PutMergesFields(docs: seq<Doc>, data: Doc, now: int)
    requires IsJson(data)
    ensures var r := Put(docs, Some(data), now);
      r.outcome.Done? ==>
        var k := IdIndex(docs, ToObjectId(data["_id"]).value);
        && 0 <= k < |docs|
        && r.docs[k]["updated_at"] == Stamp(now)
        && (forall f :: f in data && f != "_id" && f != "updated_at" ==> f in r.docs[k] && r.docs[k][f] == data[f])
        && (forall f :: f in docs[k] && (f !in data || f == "_id") && f != "updated_at" ==> f in r.docs[k] && r.docs[k][f] == docs[k][f])
        && (forall f :: f in r.docs[k] ==> f in docs[k] || f in data || f == "updated_at")
  {
    var r := Put(docs, Some(data), now);
    if r.outcome.Done? {
      var k := IdIndex(docs, ToObjectId(data["_id"]).value);
      assert 0 <= k < |docs|;
      var merged := docs[k] + (data - {"_id"})["updated_at" := Stamp(now)];
      assert r.docs[k] == merged;
      SetMerge(docs[k], data, now);
    }
  }

  /** The `$set` of a PUT body on one document. */
  lemma SetMerge(d: Doc, data: Doc, now: int)
    ensures var m := d + (data - {"_id"})["updated_at" := Stamp(now)];
      && m["updated_at"] == Stamp(now)
      && (forall f :: f in data && f != "_id" && f != "updated_at" ==> f in m && m[f] == data[f])
      && (forall f :: f in d && (f !in data || f == "_id") && f != "updated_at" ==> f in m && m[f] == d[f])
      && (forall f :: f in m ==> f in d || f in data || f == "updated_at")
  {
  }

  /** PUT keeps every `_id` present and unique. */
  lemma PutKeepsIdsValid(docs: seq<Doc>, body: Option<Doc>, now: int)
    requires body.Some? ==> IsJson(body.value)
    requires IdsValid(docs)
    ensures IdsValid(Put(docs, body, now).docs)
  {
    var r := Put(docs, body, now);
    if r.outcome.Done? {
      PutChangesOnlyItsDocument(docs, body.value, now);
      assert forall j :: 0 <= j < |docs| ==> Field(r.docs[j], "_id") == Field(docs[j], "_id");
    }
  }

  // ----- DELETE -----

  /** The collection without its `k`-th document, the others in order. */
  function RemoveAt(docs: seq<Doc>, k: int): (r: seq<Doc>)
    requires 0 <= k < |docs|
    ensures |r| == |docs| - 1
    ensures forall j :: 0 <= j < |r| ==> r[j] == if j < k then docs[j] else docs[j + 1]
  {
    docs[..k] + docs[k + 1..]
  }

  /** `do_DELETE` once the store is configured. */
  function Delete(docs: seq<Doc>, body: Option<Doc>): (r: Step)
    requires body.Some? ==> IsJson(body.value)
    ensures r.outcome.Failed? ==> r.docs == docs
    ensures body.Some? && !Truthy(Field(body.value, "_id")) ==> r == Step(Failed(RecordIdRequired), docs)
    ensures r.outcome.Done? ==> |r.docs| == |docs| - 1
  {
    if body.None? then Step(Failed(Raised), docs)
    else
      var recordId := Field(body.value, "_id");
      if !Truthy(recordId) then Step(Failed(RecordIdRequired), docs)
      else
        match ToObjectId(recordId)
        case None => Step(Failed(Raised), docs)
        case Some(oid) =>
          var k := IdIndex(docs, oid);
          if k < 0 then Step(Failed(RecordNotFound), docs)
          else Step(Done("Record deleted", None), RemoveAt(docs, k))
  }

  /**
   * DELETE of a known id removes exactly the first document with that id and
   * keeps the order of the rest; with unique ids none with that id is left.
   */
  lemma DeleteRemovesExactlyOne(docs: seq<Doc>, data: Doc)
    requires IsJson(data) && IdsValid(docs)
    requires Truthy(Field(data, "_id")) && ToObjectId(data["_id"]).Some?
    requires IdIndex(docs, ToObjectId(data["_id"]).value) >= 0
    ensures var oid := ToObjectId(data["_id"]).value;
      var k := IdIndex(docs, oid);
      var r := Delete(docs, Some(data));
      && r == Step(Done("Record deleted", None), RemoveAt(docs, k))
      && Field(docs[k], "_id") == oid
      && forall j :: 0 <= j < |r.docs| ==> Field(r.docs[j], "_id") != oid
  {
    var oid := ToObjectId(data["_id"]).value;
    RemovedIdIsGone(docs, IdIndex(docs, oid));
  }

  /** With unique ids, taking out document `k` leaves no document with its id. */
  lemma RemovedIdIsGone(docs: seq<Doc>, k: int)
    requires IdsValid(docs) && 0 <= k < |docs|
    ensures forall j :: 0 <= j < |docs| - 1 ==> Field(RemoveAt(docs, k)[j], "_id") != docs[k]["_id"]
  {
    var rest := RemoveAt(docs, k);
    forall j | 0 <= j < |rest|
      ensures Field(rest[j], "_id") != docs[k]["_id"]
    {
      if j < k {
        assert rest[j] == docs[j];
      } else {
        assert rest[j] == docs[j + 1];
      }
    }
  }

  /** DELETE of an id no document has changes nothing and answers "Record not found". */
  lemma DeleteUnknownId(docs: seq<Doc>, data: Doc)
    requires IsJson(data) && Truthy(Field(data, "_id")) && ToObjectId(data["_id"]).Some?
    requires forall j :: 0 <= j < |docs| ==> Field(docs[j], "_id") != ToObjectId(data["_id"]).value
    ensures Delete(docs, Some(data)) == Step(Failed(RecordNotFound), docs)
  {
  }

  // ----- GET -----

  /** The query `{'unit': unit, 'jabatan': jabatan}`; an empty parameter is no condition. */
  predicate Matches(doc: Doc, unit: string, jabatan: string) {
    (unit == "" || Field(doc, "unit") == Str(unit)) && (jabatan == "" || Field(doc, "jabatan") == Str(jabatan))
  }

  function Filter(docs: seq<Doc>, unit: string, jabatan: string): (r: seq<Doc>)
    ensures |r| <= |docs|
    ensures forall d :: d in r <==> d in docs && Matches(d, unit, jabatan)
  {
    if docs == [] then []
    else
      var n := |docs| - 1;
      Filter(docs[..n], unit, jabatan) + (if Matches(docs[n], unit, jabatan) then [docs[n]] else [])
  }

  /** Position of a value's type in BSON's comparison order. */
  function TypeRank(v: Value): nat {
    match v
    case Null => 0
    case Num(_) => 1
    case Str(_) => 2
    case Oid(_) => 3
    case Bool(_) => 4
    case Stamp(_) => 5
  }

  /** BSON's `<`: first by type, then by value (strings and ids by code point). */
  predicate ValueBelow(a: Value, b: Value) {
    if TypeRank(a) != TypeRank(b) then TypeRank(a) < TypeRank(b)
    else match a
      case Null => false
      case Num(x) => x < b.n
      case Str(x) => Below(x, b.s)
      case Oid(x) => Below(x, b.hex)
      case Bool(x) => !x && b.b
      case Stamp(x) => x < b.t
  }

  lemma ValueBelowTransitive(a: Value, b: Value, c: Value)
    requires ValueBelow(a, b) && ValueBelow(b, c)
    ensures ValueBelow(a, c)
  {
    if TypeRank(a) == TypeRank(b) == TypeRank(c) {
      if a.Str? {
        BelowTransitive(a.s, b.s, c.s);
      } else if a.Oid? {
        BelowTransitive(a.hex, b.hex, c.hex);
      }
    }
  }

  lemma ValueBelowTotal(a: Value, b: Value)
    ensures a == b || ValueBelow(a, b) || ValueBelow(b, a)
  {
    if TypeRank(a) == TypeRank(b) {
      if a.Str? {
        BelowTotal(a.s, b.s);
      } else if a.Oid? {
        BelowTotal(a.hex, b.hex);
      }
    }
  }

  /** `sort('date', -1)`: dates never increase along the list. */
  predicate DateDescending(docs: seq<Doc>) {
    forall i, j :: 0 <= i < j < |docs| ==> !ValueBelow(Field(docs[i], "date"), Field(docs[j], "date"))
  }

  lemma NotBelowItself(v: Value)
    ensures !ValueBelow(v, v)
  {
    if v.Str? {
      BelowIrreflexive(v.s);
    } else if v.Oid? {
      BelowIrreflexive(v.hex);
    }
  }

  function DateOf(d: Doc): Value {
    Field(d, "date")
  }

  lemma NotBelowTransitive(a: Value, b: Value, c: Value)
    requires !ValueBelow(a, b) && !ValueBelow(b, c)
    ensures !ValueBelow(a, c)
  {
    if ValueBelow(a, c) {
      ValueBelowTotal(a, b);
      if a != b {
        ValueBelowTransitive(b, a, c);
      }
    }
  }

  lemma ValueBelowAsymmetric(a: Value, b: Value)
    requires ValueBelow(a, b)
    ensures !ValueBelow(b, a)
  {
    if ValueBelow(b, a) {
      ValueBelowTransitive(a, b, a);
      NotBelowItself(a);
    }
  }

  lemma DescendingCons(d: Doc, s: seq<Doc>)
    requires DateDescending(s)
    requires s != [] ==> !ValueBelow(DateOf(d), DateOf(s[0]))
    ensures DateDescending([d] + s)
  {
    forall j | 0 < j < |s|
      ensures !ValueBelow(DateOf(d), DateOf(s[j]))
    {
      NotBelowTransitive(DateOf(d), DateOf(s[0]), DateOf(s[j]));
    }
  }

  /** A document whose date is below none of a descending list's dates can go in front of it. */
  lemma PrependKeepsDescending(h: Doc, rest: seq<Doc>)
    requires DateDescending(rest)
    requires forall k :: 0 <= k < |rest| ==> !ValueBelow(DateOf(h), DateOf(rest[k]))
    ensures DateDescending([h] + rest)
  {
    var r := [h] + rest;
    forall i, j | 0 <= i < j < |r|
      ensures !ValueBelow(DateOf(r[i]), DateOf(r[j]))
    {
      assert r[j] == rest[j - 1];
      if i > 0 {
        assert r[i] == rest[i - 1];
      }
    }
  }

  /** After the insertion into the tail, the head's date is still below none of the result's. */
  lemma HeadStaysFirst(d: Doc, s: seq<Doc>, rest: seq<Doc>)
    requires DateDescending(s) && s != [] && !ValueBelow(DateOf(s[0]), DateOf(d))
    requires multiset(rest) == multiset(s[1..]) + multiset{d}
    ensures forall k :: 0 <= k < |rest| ==> !ValueBelow(DateOf(s[0]), DateOf(rest[k]))
  {
    forall k | 0 <= k < |rest|
      ensures !ValueBelow(DateOf(s[0]), DateOf(rest[k]))
    {
      assert rest[k] in multiset(rest);
      if rest[k] != d {
        assert rest[k] in s[1..];
        var j :| 0 <= j < |s[1..]| && s[1..][j] == rest[k];
        assert s[j + 1] == rest[k];
      }
    }
  }

  /** Puts `d` after every document whose date is not below its own. */
  function InsertByDate(d: Doc, s: seq<Doc>): (r: seq<Doc>)
    requires DateDescending(s)
    ensures DateDescending(r)
    ensures multiset(r) == multiset(s) + multiset{d}
  {
    if s == [] then [d]
    else if ValueBelow(DateOf(s[0]), DateOf(d)) then
      ValueBelowAsymmetric(DateOf(s[0]), DateOf(d));
      DescendingCons(d, s);
      [d] + s
    else
      var rest := InsertByDate(d, s[1..]);
      HeadStaysFirst(d, s, rest);
      PrependKeepsDescending(s[0], rest);
      assert s == [s[0]] + s[1..];
      [s[0]] + rest
  }

  /** The cursor's order: newest date first. */
  function SortByDateDescending(docs: seq<Doc>): (r: seq<Doc>)
    ensures DateDescending(r)
    ensures multiset(r) == multiset(docs)
  {
    if docs == [] then []
    else
      var n := |docs| - 1;
      assert docs == docs[..n] + [docs[n]];
      InsertByDate(docs[n], SortByDateDescending(docs[..n]))
  }

  /** `list(find(filter).sort('date', -1))` */
  function Found(docs: seq<Doc>, unit: string, jabatan: string): (r: seq<Doc>)
    ensures DateDescending(r)
    ensures multiset(r) == multiset(Filter(docs, unit, jabatan))
    ensures forall d :: d in r <==> d in docs && Matches(d, unit, jabatan)
  {
    var r := SortByDateDescending(Filter(docs, unit, jabatan));
    assert forall d :: d in r <==> d in multiset(Filter(docs, unit, jabatan));
    r
  }

  /** `record['_id'] = str(record['_id'])` */
  function WithStringId(d: Doc): (r: Doc)
    requires "_id" in d && !d["_id"].Stamp?
    ensures r.Keys == d.Keys && r["_id"].Str?
    ensures forall f :: f in d && f != "_id" ==> r[f] == d[f]
  {
    d["_id" := Str(StrOf(d["_id"]))]
  }

  class AttendanceStore {
    /** `MONGO_AVAILABLE`: a connection string was configured and pymongo imported. */
    const mongoAvailable: bool
    /** `attendance_records`, in natural order. */
    var docs: seq<Doc>

    predicate Valid()
      reads this
    {
      IdsValid(docs)
    }

    constructor (mongoAvailable: bool, docs: seq<Doc>)
      requires IdsValid(docs)
      ensures Valid() && this.mongoAvailable == mongoAvailable && this.docs == docs
    {
      this.mongoAvailable := mongoAvailable;
      this.docs := docs;
    }

    /** `find_one` on the upsert key. */
    method FindByKey(data: Doc) returns (k: int)
      requires HasKey(data)
      ensures k == KeyIndex(docs, data)
    {
      k := 0;
      while k < |docs|
        invariant 0 <= k <= |docs|
        invariant forall j :: 0 <= j < k ==> !KeyMatches(docs[j], data)
      {
        if KeyMatches(docs[k], data) {
          return;
        }
        k := k + 1;
      }
      k := -1;
    }

    /** The document an `{'_id': id}` filter selects. */
    method FindById(id: Value) returns (k: int)
      ensures k == IdIndex(docs, id)
    {
      k := 0;
      while k < |docs|
        invariant 0 <= k <= |docs|
        invariant forall j :: 0 <= j < k ==> Field(docs[j], "_id") != id
      {
        if Field(docs[k], "_id") == id {
          return;
        }
        k := k + 1;
      }
      k := -1;
    }

    /** `do_POST` */
    method HandlePost(body: Option<Doc>, now: int, freshId: Value) returns (outcome: Outcome)
      requires Valid() && freshId.Oid?
      requires body.Some? ==> IsJson(body.value)
      modifies this
      ensures Valid()
      ensures !mongoAvailable ==> outcome == Failed(NotConfigured) && docs == old(docs)
      ensures mongoAvailable ==> Step(outcome, docs) == Post(old(docs), body, now, freshId)
    {
      if !mongoAvailable {
        return Failed(NotConfigured);
      }
      PostKeepsIdsValid(docs, body, now, freshId);
      if body.None? || !HasKey(body.value) {
        return Failed(Raised);
      }
      var data := body.value;
      var existing := FindByKey(data);
      if existing >= 0 {
        var id := Field(docs[existing], "_id");
        if "_id" in data && data["_id"] != id {
          return Failed(Raised);
        }
        docs := docs[existing := docs[existing] + data];
        outcome := Done("Record updated", Some(StrOf(id)));
      } else {
        data := data["created_at" := Stamp(now)];
        if "_id" !in data {
          data := data["_id" := freshId];
        }
        var taken := FindById(data["_id"]);
        if taken >= 0 {
          return Failed(Raised);
        }
        docs := docs + [data];
        outcome := Done("Record created", Some(StrOf(data["_id"])));
      }
    }

    /** `do_PUT` */
    method HandlePut(body: Option<Doc>, now: int) returns (outcome: Outcome)
      requires Valid()
      requires body.Some? ==> IsJson(body.value)
      modifies this
      ensures Valid()
      ensures !mongoAvailable ==> outcome == Failed(NotConfigured) && docs == old(docs)
      ensures mongoAvailable ==> Step(outcome, docs) == Put(old(docs), body, now)
    {
      if !mongoAvailable {
        return Failed(NotConfigured);
      }
      PutKeepsIdsValid(docs, body, now);
      if body.None? {
        return Failed(Raised);
      }
      var data := body.value;
      var recordId := Field(data, "_id");
      data := data - {"_id"};
      if !Truthy(recordId) {
        return Failed(RecordIdRequired);
      }
      data := data["updated_at" := Stamp(now)];
      var oid := ToObjectId(recordId);
      if oid.None? {
        return Failed(Raised);
      }
      var k := FindById(oid.value);
      if k < 0 {
        return Failed(RecordNotFound);
      }
      var merged := docs[k] + data;
      if merged != docs[k] {
        docs := docs[k := merged];
        outcome := Done("Record updated", None);
      } else {
        outcome := Failed(RecordNotFound);
      }
    }

    /** `do_DELETE` */
    method HandleDelete(body: Option<Doc>) returns (outcome: Outcome)
      requires Valid()
      requires body.Some? ==> IsJson(body.value)
      modifies this
      ensures Valid()
      ensures !mongoAvailable ==> outcome == Failed(NotConfigured) && docs == old(docs)
      ensures mongoAvailable ==> Step(outcome, docs) == Delete(old(docs), body)
    {
      if !mongoAvailable {
        return Failed(NotConfigured);
      }
      if body.None? {
        return Failed(Raised);
      }
      var recordId := Field(body.value, "_id");
      if !Truthy(recordId) {
        return Failed(RecordIdRequired);
      }
      var oid := ToObjectId(recordId);
      if oid.None? {
        return Failed(Raised);
      }
      var k := FindById(oid.value);
      if k < 0 {
        return Failed(RecordNotFound);
      }
      RemovedIdIsGone(docs, k);
      docs := RemoveAt(docs, k);
      outcome := Done("Record deleted", None);
    }

    /**
     * `do_GET`: the documents matching the non-empty parameters, newest date
     * first, each `_id` turned into its string.
     */
    method HandleGet(unit: string, jabatan: string) returns (outcome: Outcome)
      requires Valid()
      ensures !mongoAvailable ==> outcome == Failed(NotConfigured)
      ensures mongoAvailable ==>
        var found: seq<Doc> := Found(docs, unit, jabatan);
        && outcome.Listing? && |outcome.data| == |found|
        && (forall k :: 0 <= k < |found| ==>
              "_id" in found[k] && !found[k]["_id"].Stamp? && outcome.data[k] == WithStringId(found[k]))
        && DateDescending(outcome.data)
    {
      if !mongoAvailable {
        return Failed(NotConfigured);
      }
      var found: seq<Doc> := Found(docs, unit, jabatan);
      assert forall k :: 0 <= k < |found| ==> "_id" in found[k] && !found[k]["_id"].Stamp? by {
        forall k | 0 <= k < |found|
          ensures "_id" in found[k] && !found[k]["_id"].Stamp?
        {
          assert found[k] in docs;
        }
      }
      var records := StringifyIds(found);
      StringIdsKeepOrder(found, records);
      outcome := Listing(records);
    }
  }

  /** The `for record in records` loop of `do_GET`: each `_id` replaced by its string, in place. */
  method StringifyIds(found: seq<Doc>) returns (records: seq<Doc>)
    requires forall k :: 0 <= k < |found| ==> "_id" in found[k] && !found[k]["_id"].Stamp?
    ensures |records| == |found|
    ensures forall k :: 0 <= k < |found| ==> records[k] == WithStringId(found[k])
  {
    records := found;
    for i := 0 to |records|
      invariant |records| == |found|
      invariant forall k :: 0 <= k < i ==> records[k] == WithStringId(found[k])
      invariant forall k :: i <= k < |records| ==> records[k] == found[k]
    {
      records := records[i := WithStringId(records[i])];
    }
  }

  /** Turning `_id` into a string leaves every date alone, so the date order survives. */
  lemma StringIdsKeepOrder(found: seq<Doc>, records: seq<Doc>)
    requires forall k :: 0 <= k < |found| ==> "_id" in found[k] && !found[k]["_id"].Stamp?
    requires |records| == |found| && forall k :: 0 <= k < |found| ==> records[k] == WithStringId(found[k])
    requires DateDescending(found)
    ensures DateDescending(records)
  {
    forall i, j | 0 <= i < j < |records|
      ensures !ValueBelow(DateOf(records[i]), DateOf(records[j]))
    {
      assert DateOf(records[i]) == DateOf(found[i]) && DateOf(records[j]) == DateOf(found[j]);
    }
  }
}
