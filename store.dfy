/** The `blogs` collection as the create and update routes change it: a
    sequence of entries, each with the `_id` the store assigned on insert. */
module Store {
  import opened BlogModel
  import Create
  import Update

  /** The position of the first entry with `_id` `key`. */
  function IndexOf(es: seq<Entry>, key: nat): (r: Option<nat>)
    ensures r.Some? ==> r.value < |es| && es[r.value].key == key
    ensures r.Some? ==> forall j :: 0 <= j < r.value ==> es[j].key != key
    ensures r.None? <==> key !in Keys(es)
  {
    if es == [] then None
    else if es[0].key == key then Some(0)
    else
      var rest := IndexOf(es[1..], key);
      assert Keys(es) == {es[0].key} + Keys(es[1..]) by {
        assert forall i :: 0 < i < |es| ==> es[i] == es[1..][i - 1];
        forall x | x in Keys(es[1..]) ensures x in Keys(es) {
          var i :| 0 <= i < |es[1..]| && es[1..][i].key == x;
          assert es[i + 1].key == x;
        }
      }
      if rest.None? then None else Some(rest.value + 1)
  }

  /** `updateOne({_id: key}, {$set: u})` on the entries: the matched entry
      takes the set, every other entry is left as it was. */
  function SetWhere(es: seq<Entry>, key: nat, u: Update.Fields): (r: seq<Entry>)
    ensures |r| == |es|
    ensures forall i :: 0 <= i < |es| ==> r[i].key == es[i].key
    ensures forall i :: 0 <= i < |es| && es[i].key != key ==> r[i] == es[i]
    ensures UniqueKeys(es) ==> forall i :: 0 <= i < |es| && es[i].key == key ==> r[i].doc == Update.Apply(es[i].doc, u)
  {
    match IndexOf(es, key)
    case None => es
    case Some(i) => es[i := Entry(key, Update.Apply(es[i].doc, u))]
  }

  /** Whether the update changes the stored document (`modifiedCount` is 1):
      exactly when the update leaves the collection different. */
  predicate Modifies(es: seq<Entry>, key: nat, u: Update.Fields): (r: bool)
    ensures r <==> SetWhere(es, key, u) != es
    ensures r ==> key in Keys(es)
  {
    var i := IndexOf(es, key);
    if i.Some? then
      var j := i.value;
      assert SetWhere(es, key, u)[j].doc == Update.Apply(es[j].doc, u);
      Update.Apply(es[j].doc, u) != es[j].doc
    else
      false
  }

  /** A `blog` value that differs from the stored one in any part, the block
      data the description ignores included, modifies the document, so the
      route answers 200. */
  lemma NewBodyModifies(es: seq<Entry>, key: nat, u: Update.Fields)
    requires IndexOf(es, key).Some? && u.blog.Some?
    requires u.blog.value != es[IndexOf(es, key).value].doc.blog
    ensures Modifies(es, key, u)
  {
    var d := es[IndexOf(es, key).value].doc;
    assert Update.FieldOf(Update.Apply(d, u), Update.BlogBody) == Update.BodyValue(u.blog.value);
  }

  /** A document inserted under a fresh `_id` is the one that `_id` finds. */
  lemma InsertedIsFound(es: seq<Entry>, key: nat, d: Doc)
    requires key !in Keys(es)
    ensures IndexOf(es + [Entry(key, d)], key) == Some(|es|)
  {
    var ext := es + [Entry(key, d)];
    assert ext[|es|].key in Keys(ext);
    forall j | 0 <= j < |es| ensures ext[j].key != key {
      assert ext[j] == es[j];
      assert es[j].key in Keys(es);
    }
  }

  /** Sending the same update again modifies nothing, so the second `PUT`
      answers 404. */
  lemma RepeatedUpdateModifiesNothing(es: seq<Entry>, key: nat, u: Update.Fields)
    ensures !Modifies(SetWhere(es, key, u), key, u)
  {
    var es' := SetWhere(es, key, u);
    var i := IndexOf(es, key);
    if i.Some? {
      var j := i.value;
      assert es' == es[j := Entry(key, Update.Apply(es[j].doc, u))];
      assert forall k :: 0 <= k < j ==> es'[k] == es[k];
      assert es'[j].key in Keys(es');
      assert IndexOf(es', key) == Some(j);
      Update.ApplyIsIdempotent(es[j].doc, u);
    } else {
      assert es' == es;
    }
  }

  /** The 201 reply of `POST /blogs`: the store's `_id` and the client's `id`. */
  datatype Created = Created(message: string, blogId: nat, customId: string)

  class BlogStore {
    var entries: seq<Entry>
    /** The next `_id` the store hands out. */
    var nextKey: nat

    /** `_id`s are unique and already handed out, and every stored document
        has its required fields. */
    ghost predicate Valid()
      reads this
    {
      && UniqueKeys(entries)
      && (forall i :: 0 <= i < |entries| ==> entries[i].key < nextKey)
      && (forall i :: 0 <= i < |entries| ==> Complete(entries[i].doc))
    }

    constructor ()
      ensures Valid() && entries == []
    {
      entries := [];
      nextKey := 0;
    }

    /** `insertOne`: appends the document under a fresh `_id`. */
    method InsertOne(d: Doc) returns (key: nat)
      requires Valid() && Complete(d)
      modifies this
      ensures Valid()
      ensures key !in Keys(old(entries))
      ensures entries == old(entries) + [Entry(key, d)]
    {
      key := nextKey;
      entries := entries + [Entry(key, d)];
      nextKey := nextKey + 1;
    }

    /** The scan `updateOne` does for its filter `{_id: key}`. */
    method FindIndex(key: nat) returns (r: Option<nat>)
      ensures r == IndexOf(entries, key)
    {
      var i := 0;
      while i < |entries|
        invariant 0 <= i <= |entries|
        invariant forall j :: 0 <= j < i ==> entries[j].key != key
      {
        if entries[i].key == key {
          assert entries[i].key in Keys(entries);
          return Some(i);
        }
        i := i + 1;
      }
      return None;
    }

    /** `updateOne({_id: key}, {$set: u})`, answering `modifiedCount`. */
    method UpdateOne(key: nat, u: Update.Fields) returns (modifiedCount: nat)
      requires Valid() && Update.OnlyTruthy(u)
      modifies this
      ensures Valid()
      ensures entries == SetWhere(old(entries), key, u)
      ensures modifiedCount == if Modifies(old(entries), key, u) then 1 else 0
    {
      var i := FindIndex(key);
      if i.None? {
        return 0;
      }
      var j := i.value;
      var d := entries[j].doc;
      var d' := Update.Apply(d, u);
      Update.ApplyKeepsComplete(d, u);
      entries := entries[j := Entry(key, d')];
      modifiedCount := if d' != d then 1 else 0;
    }

    /** `POST /blogs`: 400 when a required field is missing, otherwise the new
        document is inserted and the reply names its `_id` and `id`. */
    method CreateBlog(req: Create.CreateRequest, now: int) returns (res: Response<Created>)
      requires Valid()
      modifies this
      ensures Valid()
      ensures res.Fail? <==> !Create.HasRequired(req)
      ensures res.Fail? ==> res == Fail(400, "Required fields are missing") && entries == old(entries)
      ensures res.Reply? ==>
                && res.status == 201
                && res.body.blogId !in Keys(old(entries))
                && Create.NewBlog(req, now).Some?
                && entries == old(entries) + [Entry(res.body.blogId, Create.NewBlog(req, now).value)]
                && res.body.customId == req.id.value
    {
      var doc := Create.NewBlog(req, now);
      if doc.None? {
        return Fail(400, "Required fields are missing");
      }
      var key := InsertOne(doc.value);
      res := Reply(201, Created("Blog created successfully", key, doc.value.id));
    }

    /** `PUT /blogs/:id`: builds the update set from the body and applies it;
        404 when no document was modified (none matched, or the set changed
        nothing). */
    method UpdateBlog(key: nat, body: Update.Fields) returns (res: Response<string>)
      requires Valid()
      modifies this
      ensures Valid()
      ensures exists u :: Update.IsUpdateSetFor(u, body)
                && entries == SetWhere(old(entries), key, u)
                && (res.Reply? <==> Modifies(old(entries), key, u))
      ensures res.Fail? ==> res == Fail(404, "Blog not found or no changes made")
      ensures res.Reply? ==> res == Reply(200, "Blog updated successfully")
    {
      var u := Update.BuildUpdateSet(body);
      var modifiedCount := UpdateOne(key, u);
      if modifiedCount == 0 {
        res := Fail(404, "Blog not found or no changes made");
      } else {
        res := Reply(200, "Blog updated successfully");
      }
      assert Update.IsUpdateSetFor(u, body) && entries == SetWhere(old(entries), key, u);
    }
  }
}
