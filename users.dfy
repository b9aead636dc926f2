/** The `users` collection of the database, held in memory: its documents in
    insertion order, the `findOne` queries the handlers issue against it, and
    `insertOne`. */
module Users {
  import opened Js

  /** The `_id` the database assigns to an inserted document. */
  type UserId = nat

  /** A user document. `isAdmin` is absent on every document signup inserts;
      administrators are documents the site owner puts into the collection
      by other means. */
  datatype UserDoc = UserDoc(id: UserId, email: string, password: string, isAdmin: Option<bool>)

  ghost predicate IdsUnique(docs: seq<UserDoc>) {
    forall i, j :: 0 <= i < j < |docs| ==> docs[i].id != docs[j].id
  }

  /** No two documents share an email address. */
  ghost predicate EmailsUnique(docs: seq<UserDoc>) {
    forall i, j :: 0 <= i < j < |docs| ==> docs[i].email != docs[j].email
  }

  /** `findOne({email})`: the index of the first document whose email equals
      the queried value. A query for `undefined` matches no document, since
      every stored email is a string. */
  function FindByEmail(docs: seq<UserDoc>, email: Field): (r: Option<nat>)
    ensures r.Some? ==> r.value < |docs| && email == Some(docs[r.value].email)
    ensures r.Some? ==> forall k :: 0 <= k < r.value ==> email != Some(docs[k].email)
    ensures r.None? <==> forall k :: 0 <= k < |docs| ==> email != Some(docs[k].email)
  {
    if docs == [] then None
    else if email == Some(docs[0].email) then Some(0)
    else match FindByEmail(docs[1..], email)
      case None => None
      case Some(i) => Some(i + 1)
  }

  /** `findOne({_id})`: the index of the first document with that id. */
  function FindById(docs: seq<UserDoc>, id: UserId): (r: Option<nat>)
    ensures r.Some? ==> r.value < |docs| && docs[r.value].id == id
    ensures r.Some? ==> forall k :: 0 <= k < r.value ==> docs[k].id != id
    ensures r.None? <==> forall k :: 0 <= k < |docs| ==> docs[k].id != id
  {
    if docs == [] then None
    else if docs[0].id == id then Some(0)
    else match FindById(docs[1..], id)
      case None => None
      case Some(i) => Some(i + 1)
  }

  /** With unique ids, the lookup by id finds a document exactly when it is
      the one at index `k`. */
  lemma FindByIdUnique(docs: seq<UserDoc>, id: UserId, k: nat)
    requires IdsUnique(docs) && k < |docs|
    ensures FindById(docs, id) == Some(k) <==> docs[k].id == id
  {
  }

  /** With unique emails, the lookup by email finds the one document carrying it. */
  lemma FindByEmailUnique(docs: seq<UserDoc>, k: nat)
    requires EmailsUnique(docs) && k < |docs|
    ensures FindByEmail(docs, Some(docs[k].email)) == Some(k)
  {
  }

  /** Appending a document whose email the lookup does not find keeps the
      emails unique: the check-then-insert of signup, run on its own. */
  lemma InsertKeepsEmailsUnique(docs: seq<UserDoc>, d: UserDoc)
    requires EmailsUnique(docs)
    requires FindByEmail(docs, Some(d.email)).None?
    ensures EmailsUnique(docs + [d])
  {
  }

  /** After an insert of an email the lookup did not find, the lookup finds
      the new document. */
  lemma FindByEmailAppended(docs: seq<UserDoc>, d: UserDoc)
    requires FindByEmail(docs, Some(d.email)).None?
    ensures FindByEmail(docs + [d], Some(d.email)) == Some(|docs|)
  {
    var all := docs + [d];
    assert all[|docs|] == d;
    assert forall k :: 0 <= k < |docs| ==> all[k] == docs[k];
  }

  /** An id larger than every id in `docs`. */
  function FreshId(docs: seq<UserDoc>): (r: UserId)
    ensures forall k :: 0 <= k < |docs| ==> docs[k].id < r
  {
    if docs == [] then 0
    else var rest := FreshId(docs[1..]);
      if docs[0].id < rest then rest else docs[0].id + 1
  }

  /** The ids are distinct and all lie below `nextId`, where the database's id
      generator stands. */
  ghost predicate CollectionValid(docs: seq<UserDoc>, nextId: UserId) {
    && (forall k :: 0 <= k < |docs| ==> docs[k].id < nextId)
    && IdsUnique(docs)
  }

  class UserCollection {
    var docs: seq<UserDoc>
    var nextId: UserId

    ghost predicate Valid()
      reads this
    {
      CollectionValid(docs, nextId)
    }

    /** A collection already holding `initial`, documents inserted outside this flow
        (administrators among them). */
    constructor (initial: seq<UserDoc>)
      requires IdsUnique(initial)
      ensures Valid() && docs == initial
    {
      docs := initial;
      nextId := FreshId(initial);
    }

    /** `insertOne({email, password})`, with `isAdmin` as given: appends one
        document under the generator's next id, which no document had, and
        changes nothing else. */
    method InsertOne(email: string, password: string, isAdmin: Option<bool>) returns (id: UserId)
      requires Valid()
      modifies this
      ensures Valid()
      ensures forall k :: 0 <= k < |old(docs)| ==> old(docs)[k].id != id
      ensures id == old(nextId) && nextId == old(nextId) + 1
      ensures docs == old(docs) + [UserDoc(id, email, password, isAdmin)]
    {
      id := nextId;
      docs := docs + [UserDoc(id, email, password, isAdmin)];
      nextId := nextId + 1;
    }
  }
}
