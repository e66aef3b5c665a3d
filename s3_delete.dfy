/**
 * The delete route: read `key` from the body, answer 400 when it is
 * falsy, otherwise send one delete command for it to the object store and
 * answer 200, or 500 when anything throws. No caller identity is consulted.
 */
module S3Delete {

  import opened Wrappers
  import opened Json
  import opened Http

  /** One bucket of the object store, with the keys of the delete commands sent to it, in order. */
  class ObjectStore {
    var objects: set<string>
    var issued: seq<Value>

    constructor (objects: set<string>)
      ensures this.objects == objects && issued == []
    {
      this.objects := objects;
      issued := [];
    }

    /**
     * `S3.send(new DeleteObjectCommand({Key: key}))`; `fails` says whether
     * the call throws, in which case nothing is removed. A key that is not a
     * string is sent as it is and names no stored object.
     */
    method Send(key: Value, fails: bool) returns (ok: bool)
      modifies this
      ensures ok == !fails
      ensures issued == old(issued) + [key]
      ensures objects == if ok && key.Str? then old(objects) - {key.s} else old(objects)
    {
      issued := issued + [key];
      ok := !fails;
      if ok && key.Str? {
        objects := objects - {key.s};
      }
    }
  }

  /** The three ways reading `body.key` and testing `!key` can go. */
  datatype KeyCheck = BodyThrew | Missing | Present(key: Value)

  /** `body` is None when `request.json()` throws; reading a field of `null` throws too. */
  function RequestKey(body: Option<Value>): (k: KeyCheck)
    ensures k.BodyThrew? <==> body.None? || body.value.Null?
    ensures k.Present? <==> body.Some? && Member(body.value, "key").Defined? && Truthy(Member(body.value, "key").value)
    ensures k.Present? ==> k.key == body.value.fields["key"] && Truthy(k.key)
  {
    if body.None? then BodyThrew
    else
      match Member(body.value, "key")
      case TypeError => BodyThrew
      case Undefined => Missing
      case Defined(v) => if Truthy(v) then Present(v) else Missing
  }

  /** Every falsy key is missing: the empty string, null, false and 0 as well as an absent field. */
  lemma FalsyKeysMissing(m: map<string, Value>)
    ensures RequestKey(Some(Obj(m - {"key"}))) == Missing
    ensures RequestKey(Some(Obj(m["key" := Str("")]))) == Missing
    ensures RequestKey(Some(Obj(m["key" := Null]))) == Missing
    ensures RequestKey(Some(Obj(m["key" := Bool(false)]))) == Missing
    ensures RequestKey(Some(Obj(m["key" := Num(0.0)]))) == Missing
    ensures forall s :: s != "" ==> RequestKey(Some(Obj(m["key" := Str(s)]))) == Present(Str(s))
  {
  }

  const KeyRequired := Response(400, ErrorBody("Key is required"))
  const Deleted := Response(200, MessageBody("File deleted successfully"))
  const DeleteFailed := Response(500, ErrorBody("Failed to delete file"))

  /**
   * `DELETE`. The response depends only on the body and on whether the store
   * call throws, not on whether the object existed.
   */
  method Delete(store: ObjectStore, body: Option<Value>, sendFails: bool) returns (r: Response)
    modifies store
    ensures r in {KeyRequired, Deleted, DeleteFailed}
    ensures RequestKey(body).Missing? ==> r == KeyRequired
    ensures RequestKey(body).BodyThrew? ==> r == DeleteFailed
    ensures !RequestKey(body).Present? ==> store.objects == old(store.objects) && store.issued == old(store.issued)
    ensures RequestKey(body).Present? ==>
              var key := RequestKey(body).key;
              && store.issued == old(store.issued) + [key]
              && r == (if sendFails then DeleteFailed else Deleted)
              && store.objects == (if !sendFails && key.Str? then old(store.objects) - {key.s} else old(store.objects))
  {
    var check := RequestKey(body);
    match check {
      case BodyThrew =>
        return DeleteFailed;
      case Missing =>
        return KeyRequired;
      case Present(key) =>
        var ok := store.Send(key, sendFails);
        if !ok {
          return DeleteFailed;
        }
        return Deleted;
    }
  }
}
