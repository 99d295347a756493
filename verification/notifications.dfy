/** Notification documents, the store they are saved into and the record
    constructor shared by every notification type. */
module Notifications {
  import opened Wrappers

  /** A stored document's id, assigned by the store on first save. */
  type Id = nat

  /** The id of the user a notification is addressed to. */
  type UserId = nat

  /** A point in time, in whole seconds; the clock is a parameter. */
  type Timestamp = int

  /** A value of a notification's `data` payload: a number or a string. */
  datatype Value = Num(n: int) | Text(s: string)

  /** The part of a user account the notification code reads: its id. */
  datatype User = User(id: UserId)

  /** A notification document. `kind` is the document's `type` field; `id`
      is `None` until the store has saved the document. */
  datatype Document = Document(
    id: Option<Id>,
    kind: string,
    userId: UserId,
    data: map<string, Value>,
    time: Timestamp,
    expires: Option<Timestamp>)

  /** The notification collection: documents by id, and the next id the store
      hands out. */
  datatype Store = Store(docs: map<Id, Document>, nextId: Id) {

    /** Every stored document carries its own key, and every key was handed out
        already, so `nextId` is fresh. */
    ghost predicate Valid() {
      forall i :: i in docs ==> i < nextId && docs[i].id == Some(i)
    }
  }

  /** What a save returns: the new store and the saved document with its id. */
  datatype Stored = Stored(store: Store, doc: Document)

  /** Looks a document up by id. */
  function Get(store: Store, id: Id): Option<Document> {
    if id in store.docs then Some(store.docs[id]) else None
  }

  /** A document is expired at `t` once its `expires` time lies before `t`;
      the database's expiry index removes such documents. A document without
      `expires` never expires. */
  predicate Expired(doc: Document, t: Timestamp) {
    doc.expires.Some? && doc.expires.value < t
  }

  /** Saves a document: one without an id is given a fresh one, one with an id
      replaces whatever is stored under it. Nothing else in the store changes. */
  function Save(store: Store, doc: Document): (r: Stored)
    ensures r.doc.id.Some?
    ensures doc.id.Some? ==> r.doc.id == doc.id
    ensures r.doc == doc.(id := r.doc.id)
    ensures Get(r.store, r.doc.id.value) == Some(r.doc)
    ensures forall j :: j != r.doc.id.value ==> Get(r.store, j) == Get(store, j)
    ensures store.Valid() ==> r.store.Valid()
    ensures store.Valid() && doc.id.None? ==> Get(store, r.doc.id.value).None?
  {
    match doc.id
    case None =>
      var d := doc.(id := Some(store.nextId));
      Stored(Store(store.docs[store.nextId := d], store.nextId + 1), d)
    case Some(i) =>
      Stored(Store(store.docs[i := doc], if i < store.nextId then store.nextId else i + 1), doc)
  }

  /** `_createRecord`: builds a document of the given type for the user, stamps
      it with the clock, adds `expires` only when one is given, and saves it
      under a fresh id. */
  function CreateRecord(store: Store, now: Timestamp, kind: string, data: map<string, Value>,
                        user: User, expires: Option<Timestamp> := None): (r: Stored)
    ensures r.doc.kind == kind && r.doc.data == data
    ensures r.doc.userId == user.id
    ensures r.doc.time == now
    ensures r.doc.expires.Some? <==> expires.Some?
    ensures expires.Some? ==> r.doc.expires == expires
    ensures r.doc.id.Some? && Get(r.store, r.doc.id.value) == Some(r.doc)
    ensures forall j :: j != r.doc.id.value ==> Get(r.store, j) == Get(store, j)
    ensures store.Valid() ==> r.store.Valid() && Get(store, r.doc.id.value).None?
  {
    Save(store, Document(None, kind, user.id, data, now, expires))
  }

  /** Saving the same document twice leaves the store as the first save did. */
  lemma SaveTwice(store: Store, doc: Document)
    ensures var r := Save(store, doc); Save(r.store, r.doc) == r
  {
  }
}
