/** Progress notifications: a record created with a one-hour lifetime whose
    `total`, `current`, `state` and `message` entries are then overwritten
    by later updates. */
module Progress {
  import opened Wrappers
  import opened ProgressStates
  import opened Notifications

  /** The `type` of a progress notification. */
  const ProgressType := "progress"

  /** How long after creation a progress record expires: one hour. */
  const Lifetime := 3600

  /** The keys of a progress record's `data`. */
  const ProgressFields: set<string> := {"title", "total", "current", "state", "message"}

  /** The keys an update may overwrite; `title` is not among them. */
  const UpdatableFields: set<string> := {"total", "current", "state", "message"}

  /** The shape a progress record's `data` has when every entry holds a value
      of the kind its field documents. */
  predicate FitsField(field: string, v: Value) {
    if field == "total" || field == "current" then v.Num?
    else if field == "state" then v.Text? && ParseState(v.s).Some?
    else if field == "title" || field == "message" then v.Text?
    else false
  }

  /** A well-formed progress record: the progress type, exactly the five data
      keys, each holding a value that fits it, and an expiry time. */
  ghost predicate IsProgressDocument(d: Document) {
    && d.kind == ProgressType
    && d.data.Keys == ProgressFields
    && (forall f :: f in d.data ==> FitsField(f, d.data[f]))
    && d.expires.Some?
  }

  /** `createProgressRecord`: a progress record for `user` with the given data,
      created at `now` and expiring one hour later. */
  function CreateProgressRecord(store: Store, now: Timestamp, user: User, title: string, total: int,
                                state: ProgressState := Active, current: int := 0,
                                message: string := ""): (r: Stored)
    ensures r.doc.kind == ProgressType
    ensures r.doc.data.Keys == ProgressFields
    ensures r.doc.data["title"] == Text(title) && r.doc.data["total"] == Num(total)
    ensures r.doc.data["current"] == Num(current) && r.doc.data["message"] == Text(message)
    ensures r.doc.data["state"].Text? && ParseState(r.doc.data["state"].s) == Some(state)
    ensures IsProgressDocument(r.doc)
    ensures r.doc.userId == user.id && r.doc.time == now
    ensures r.doc.expires == Some(now + Lifetime)
    ensures r.doc.id.Some? && Get(r.store, r.doc.id.value) == Some(r.doc)
    ensures forall j :: j != r.doc.id.value ==> Get(r.store, j) == Get(store, j)
    ensures store.Valid() ==> r.store.Valid() && Get(store, r.doc.id.value).None?
  {
    var data := map["title" := Text(title), "total" := Num(total), "current" := Num(current),
                     "state" := Text(state.Name()), "message" := Text(message)];
    ParseStateRoundTrip(state, state.Name());
    CreateRecord(store, now, ProgressType, data, user, Some(now + Lifetime))
  }

  /** Left to its defaults, a new record is active, at zero, with no message. */
  lemma CreateProgressRecordDefaults(store: Store, now: Timestamp, user: User, title: string, total: int)
    ensures var r := CreateProgressRecord(store, now, user, title, total);
      r.doc.data == map["title" := Text(title), "total" := Num(total), "current" := Num(0),
                        "state" := Text("active"), "message" := Text("")]
  {
  }

  /** A progress record lives for exactly one hour after its creation time:
      it is expired at `t` exactly when `t` is past `now + Lifetime`. */
  lemma ProgressRecordLifetime(store: Store, now: Timestamp, user: User, title: string, total: int,
                               state: ProgressState, current: int, message: string)
    ensures var r := CreateProgressRecord(store, now, user, title, total, state, current, message);
      && r.doc.time < r.doc.expires.value
      && forall t :: Expired(r.doc, t) <==> now + Lifetime < t
  {
  }

  // ----- updates -----

  /** The field names of a keyword-argument list. */
  function Names(kwargs: seq<(string, Value)>): set<string> {
    set i | 0 <= i < |kwargs| :: kwargs[i].0
  }

  /** Keyword arguments name each field at most once. */
  predicate Distinct(kwargs: seq<(string, Value)>) {
    forall i, j :: 0 <= i < j < |kwargs| ==> kwargs[i].0 != kwargs[j].0
  }

  /** `d` is `data` with every keyword argument written in: the named keys get
      the given values, every other key keeps its value, no other key appears. */
  ghost predicate Overwrites(data: map<string, Value>, kwargs: seq<(string, Value)>, d: map<string, Value>) {
    && d.Keys == data.Keys + Names(kwargs)
    && (forall i :: 0 <= i < |kwargs| ==> kwargs[i].0 in d && d[kwargs[i].0] == kwargs[i].1)
    && (forall k :: k in data && k !in Names(kwargs) ==> k in d && d[k] == data[k])
  }

  /** The position of the first keyword argument that is not updatable, or
      `|kwargs|` if every one is. */
  function FirstRejected(kwargs: seq<(string, Value)>): (i: nat)
    ensures i <= |kwargs|
    ensures forall j :: 0 <= j < i ==> kwargs[j].0 in UpdatableFields
    ensures i < |kwargs| ==> kwargs[i].0 !in UpdatableFields
  {
    if kwargs == [] || kwargs[0].0 !in UpdatableFields then 0
    else 1 + FirstRejected(kwargs[1..])
  }

  /** Where the update loop stops: all arguments accepted, or at a field it
      refuses, with the data as the loop left it in both cases. */
  datatype Applied =
    | Accepted(data: map<string, Value>)
    | Rejected(field: string, data: map<string, Value>)

  /** The update loop: walks the keyword arguments in order, writing each
      updatable one into `data` and stopping at the first that is not. */
  function ApplyKwargs(data: map<string, Value>, kwargs: seq<(string, Value)>): (r: Applied)
    ensures r.Accepted? <==> forall i :: 0 <= i < |kwargs| ==> kwargs[i].0 in UpdatableFields
    ensures r.Rejected? ==> r.field !in UpdatableFields && r.field in Names(kwargs)
    ensures data.Keys <= r.data.Keys
    decreases |kwargs|
  {
    if kwargs == [] then Accepted(data)
    else
      var (field, value) := kwargs[0];
      if field in UpdatableFields then
        var r := ApplyKwargs(data[field := value], kwargs[1..]);
        assert r.Rejected? ==> r.field in Names(kwargs) by {
          if r.Rejected? {
            var i :| 0 <= i < |kwargs[1..]| && kwargs[1..][i].0 == r.field;
            assert kwargs[i + 1].0 == r.field;
          }
        }
        r
      else
        Rejected(field, data)
  }

  /** Writing one argument and then the rest is writing them all, when the
      first one is not named again. */
  lemma OverwritesCons(data: map<string, Value>, field: string, value: Value,
                       rest: seq<(string, Value)>, d: map<string, Value>)
    requires field !in Names(rest)
    requires Overwrites(data[field := value], rest, d)
    ensures Overwrites(data, [(field, value)] + rest, d)
  {
    var kwargs := [(field, value)] + rest;
    assert Names(kwargs) == {field} + Names(rest) by {
      forall k | k in Names(kwargs) ensures k in {field} + Names(rest) {
        var i :| 0 <= i < |kwargs| && kwargs[i].0 == k;
        if i > 0 { assert rest[i - 1].0 == k; }
      }
      forall k | k in Names(rest) ensures k in Names(kwargs) {
        var i :| 0 <= i < |rest| && rest[i].0 == k;
        assert kwargs[i + 1].0 == k;
      }
      assert kwargs[0].0 == field;
    }
    forall i | 0 <= i < |kwargs|
      ensures kwargs[i].0 in d && d[kwargs[i].0] == kwargs[i].1
    {
      if i == 0 {
        assert field in data[field := value];
        assert field !in Names(rest);
      } else {
        assert kwargs[i] == rest[i - 1];
      }
    }
  }

  /** The update loop stops exactly at the first refused argument, having
      written every argument before it into the data. */
  lemma {:induction false} ApplyKwargsStopsAtFirstRejected(data: map<string, Value>,
                                                           kwargs: seq<(string, Value)>)
    requires Distinct(kwargs)
    ensures var i, r := FirstRejected(kwargs), ApplyKwargs(data, kwargs);
      && (r.Accepted? <==> i == |kwargs|)
      && (r.Rejected? ==> r.field == kwargs[i].0)
      && Overwrites(data, kwargs[..i], r.data)
    decreases |kwargs|
  {
    if kwargs == [] {
      assert Names(kwargs[..0]) == {};
    } else if kwargs[0].0 !in UpdatableFields {
      assert Names(kwargs[..0]) == {};
    } else {
      var (field, value) := kwargs[0];
      var rest := kwargs[1..];
      assert Distinct(rest) by {
        forall a, b | 0 <= a < b < |rest| ensures rest[a].0 != rest[b].0 {
          assert rest[a] == kwargs[a + 1] && rest[b] == kwargs[b + 1];
        }
      }
      ApplyKwargsStopsAtFirstRejected(data[field := value], rest);
      var j := FirstRejected(rest);
      assert FirstRejected(kwargs) == j + 1;
      var prefix := rest[..j];
      OverwritesCons(data, field, value, prefix, ApplyKwargs(data, kwargs).data);
      assert kwargs[..j + 1] == [(field, value)] + prefix;
    }
  }

  /** Every argument was accepted: the data carries exactly the given values on
      the named keys and keeps all other entries. */
  lemma AcceptedOverwrites(data: map<string, Value>, kwargs: seq<(string, Value)>)
    requires Distinct(kwargs)
    requires forall i :: 0 <= i < |kwargs| ==> kwargs[i].0 in UpdatableFields
    ensures ApplyKwargs(data, kwargs).Accepted?
    ensures Overwrites(data, kwargs, ApplyKwargs(data, kwargs).data)
  {
    ApplyKwargsStopsAtFirstRejected(data, kwargs);
    assert kwargs[..|kwargs|] == kwargs;
  }

  /** The error `updateProgress` raises for a field it may not overwrite. */
  datatype InvalidKwarg = InvalidKwarg(field: string) {
    function Message(): string {
      "Invalid kwarg: " + field
    }
  }

  /** What `updateProgress` leaves behind. The source mutates the caller's
      record in place, so `record` is the caller's record afterwards in both
      cases; on `Raised` it may hold the fields accepted before the refused one. */
  datatype UpdateOutcome =
    | Saved(store: Store, record: Document)
    | Raised(store: Store, record: Document, error: InvalidKwarg)

  /** `updateProgress` with the loop over the keyword arguments' (name, value)
      pairs: every name must be updatable, and only then is the record saved.
      `expires` is never touched. */
  function UpdateProgress(store: Store, record: Document, kwargs: seq<(string, Value)>): (r: UpdateOutcome)
    requires Distinct(kwargs)
    ensures r.Saved? <==> forall i :: 0 <= i < |kwargs| ==> kwargs[i].0 in UpdatableFields
    ensures r.record.kind == record.kind && r.record.userId == record.userId
    ensures r.record.time == record.time && r.record.expires == record.expires
    ensures r.Saved? ==> Overwrites(record.data, kwargs, r.record.data)
    ensures r.Saved? ==> forall k :: k in record.data && k !in UpdatableFields ==> r.record.data[k] == record.data[k]
    ensures r.Saved? ==> r.record.id.Some? && (record.id.Some? ==> r.record.id == record.id)
    ensures r.Saved? ==> Get(r.store, r.record.id.value) == Some(r.record)
    ensures r.Saved? ==> forall j :: j != r.record.id.value ==> Get(r.store, j) == Get(store, j)
    ensures r.Saved? && store.Valid() ==> r.store.Valid()
    ensures r.Raised? ==> r.store == store
    ensures r.Raised? ==> r.error.field !in UpdatableFields && r.error.field in Names(kwargs)
    ensures r.Raised? ==> r.error.Message() == "Invalid kwarg: " + kwargs[FirstRejected(kwargs)].0
    ensures r.Raised? ==> var i := FirstRejected(kwargs);
      i < |kwargs| && r.error.field == kwargs[i].0 && r.record.id == record.id &&
      Overwrites(record.data, kwargs[..i], r.record.data)
  {
    ApplyKwargsStopsAtFirstRejected(record.data, kwargs);
    assert kwargs[..|kwargs|] == kwargs;
    match ApplyKwargs(record.data, kwargs)
    case Accepted(data) =>
      var s := Save(store, record.(data := data));
      Saved(s.store, s.doc)
    case Rejected(field, data) =>
      Raised(store, record.(data := data), InvalidKwarg(field))
  }

  /** Repeating a successful update changes nothing: the second call saves the
      same record into the same store. */
  lemma {:induction false} UpdateProgressIdempotent(store: Store, record: Document,
                                                    kwargs: seq<(string, Value)>)
    requires Distinct(kwargs)
    ensures var r := UpdateProgress(store, record, kwargs);
      r.Saved? ==> UpdateProgress(r.store, r.record, kwargs) == r
  {
    var r := UpdateProgress(store, record, kwargs);
    if r.Saved? {
      var d1 := r.record.data;
      AcceptedOverwrites(d1, kwargs);
      var d2 := ApplyKwargs(d1, kwargs).data;
      assert Names(kwargs) <= d1.Keys;
      forall k | k in d2 ensures d2[k] == d1[k] {
        if k in Names(kwargs) {
          var i :| 0 <= i < |kwargs| && kwargs[i].0 == k;
        }
      }
      assert d2 == d1;
      SaveTwice(store, record.(data := d1));
    }
  }

  /** Every update whose values fit their fields keeps a progress record a
      progress record. */
  lemma UpdateKeepsProgressShape(store: Store, record: Document, kwargs: seq<(string, Value)>)
    requires Distinct(kwargs)
    requires IsProgressDocument(record)
    requires forall i :: 0 <= i < |kwargs| ==> kwargs[i].0 in UpdatableFields && FitsField(kwargs[i].0, kwargs[i].1)
    ensures UpdateProgress(store, record, kwargs).Saved?
    ensures IsProgressDocument(UpdateProgress(store, record, kwargs).record)
  {
  }

  /** A task's updates, one call after another, each on the record and store
      the previous call left behind. */
  function UpdateAll(store: Store, record: Document, updates: seq<seq<(string, Value)>>): (r: Stored)
    requires forall k :: 0 <= k < |updates| ==> Distinct(updates[k])
    decreases |updates|
  {
    if updates == [] then Stored(store, record)
    else
      var u := UpdateProgress(store, record, updates[0]);
      UpdateAll(u.store, u.record, updates[1..])
  }

  /** No sequence of updates touches the record's expiry time. */
  lemma {:induction false} UpdatesKeepExpiry(store: Store, record: Document, updates: seq<seq<(string, Value)>>)
    requires forall k :: 0 <= k < |updates| ==> Distinct(updates[k])
    ensures UpdateAll(store, record, updates).doc.expires == record.expires
    decreases |updates|
  {
    if updates != [] {
      var u := UpdateProgress(store, record, updates[0]);
      UpdatesKeepExpiry(u.store, u.record, updates[1..]);
    }
  }

  /** Updates never renew the lease: a record created at `now` expires one
      hour later, however many updates follow. */
  lemma UpdateDoesNotRenewLease(store: Store, now: Timestamp, user: User, title: string, total: int,
                                state: ProgressState, current: int, message: string,
                                updates: seq<seq<(string, Value)>>)
    requires forall k :: 0 <= k < |updates| ==> Distinct(updates[k])
    ensures var c := CreateProgressRecord(store, now, user, title, total, state, current, message);
      var u := UpdateAll(c.store, c.doc, updates);
      forall t :: Expired(u.doc, t) <==> now + Lifetime < t
  {
    var c := CreateProgressRecord(store, now, user, title, total, state, current, message);
    UpdatesKeepExpiry(c.store, c.doc, updates);
  }
}
