/** Shared vocabulary: optional values, handler outcomes and the document
    collections the service keeps in MongoDB. */
module Common {

  datatype Option<+T> = None | Some(value: T) {
    /** The value, or `default` when absent (Python's `dict.get(key, default)`). */
    function GetOr(default: T): T {
      if Some? then value else default
    }
  }

  /** Python truthiness of an optional id: present and not the empty string. */
  predicate Present(o: Option<string>) {
    o.Some? && o.value != ""
  }

  /** A handler's reply body, or the status code of the `HTTPException` it raised. */
  datatype Outcome<+T> = Ok(value: T) | Fail(code: nat)

  /** Abstract clock reading (`datetime.utcnow()`). */
  type Time = int

  /** One MongoDB collection: documents keyed by their id field, and the
      natural order in which `find` returns them. */
  datatype Coll<T> = Coll(docs: map<string, T>, order: seq<string>)

  /** The order lists every stored id exactly once. */
  ghost predicate WfColl<T>(c: Coll<T>) {
    && (forall id :: id in c.docs <==> id in c.order)
    && Distinct(c.order)
  }

  ghost predicate Distinct<T>(s: seq<T>) {
    forall i, j :: 0 <= i < j < |s| ==> s[i] != s[j]
  }

  /** `insert_one` of a document whose id is fresh. */
  function Insert<T>(c: Coll<T>, id: string, doc: T): (r: Coll<T>)
    requires id !in c.docs
    ensures r.docs.Keys == c.docs.Keys + {id} && r.docs[id] == doc
    ensures forall x :: x in c.docs ==> r.docs[x] == c.docs[x]
    ensures WfColl(c) ==> WfColl(r)
  {
    Coll(c.docs[id := doc], c.order + [id])
  }

  /** `update_one` of an existing document: the order is untouched. */
  function Put<T>(c: Coll<T>, id: string, doc: T): (r: Coll<T>)
    requires id in c.docs
    ensures r.docs.Keys == c.docs.Keys && r.docs[id] == doc
    ensures forall x :: x in c.docs && x != id ==> r.docs[x] == c.docs[x]
    ensures WfColl(c) ==> WfColl(r)
  {
    Coll(c.docs[id := doc], c.order)
  }

  /** The order with every occurrence of `id` dropped. */
  function Without(order: seq<string>, id: string): (r: seq<string>)
    ensures forall x :: x in r <==> x in order && x != id
    ensures Distinct(order) ==> Distinct(r)
  {
    if order == [] then []
    else
      var rest := Without(order[1..], id);
      assert Distinct(order) ==> Distinct(order[1..]) && order[0] !in order[1..] by {
        if Distinct(order) {
          forall k | 0 <= k < |order[1..]| ensures order[1..][k] != order[0] {
            assert order[1..][k] == order[k + 1];
          }
        }
      }
      if order[0] == id then rest else [order[0]] + rest
  }

  /** `delete_one` by id. */
  function Remove<T>(c: Coll<T>, id: string): (r: Coll<T>)
    ensures r.docs.Keys == c.docs.Keys - {id}
    ensures forall x :: x in r.docs ==> r.docs[x] == c.docs[x]
    ensures WfColl(c) ==> WfColl(r)
  {
    Coll(c.docs - {id}, Without(c.order, id))
  }

  /** The stored ids in `find` order (stale order entries are skipped). */
  function Listed<T>(docs: map<string, T>, order: seq<string>): (r: seq<string>)
    ensures forall x :: x in r <==> x in order && x in docs
    ensures |r| <= |order|
  {
    if order == [] then []
    else if order[0] in docs then [order[0]] + Listed(docs, order[1..])
    else Listed(docs, order[1..])
  }
}
