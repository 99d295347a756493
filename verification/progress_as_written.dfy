/** `updateProgress` exactly as its loop is written. Iterating a keyword
    dictionary yields its keys, so each key string itself is unpacked into the
    loop's two variables: a key that is not two characters long raises an
    unpacking error, and a two-character key yields a one-character field name,
    which is never updatable. */
module ProgressAsWritten {
  import opened Wrappers
  import opened Notifications
  import Progress

  /** The two ways the loop as written stops. */
  datatype LoopError =
    | UnpackError(key: string)
    | InvalidKwarg(field: string)

  /** Where the loop as written ends, with the data as it left it. */
  datatype LoopEnd =
    | Finished(data: map<string, Value>)
    | Stopped(error: LoopError, data: map<string, Value>)

  /** The loop as written, over the keyword names in iteration order, checking
      each unpacked field name against the whitelist `allowed`. When no
      whitelisted name is one character long, no key is ever accepted: the loop
      finishes only over no keys, stops at the first key otherwise, and never
      changes the data. */
  function ApplyKeysAsWritten(data: map<string, Value>, keys: seq<string>, allowed: set<string>): (r: LoopEnd)
    ensures keys == [] ==> r == Finished(data)
    ensures (forall f :: f in allowed ==> |f| != 1) ==>
      && (r.Finished? <==> keys == [])
      && r.data == data
      && (r.Stopped? ==> r.error == (if |keys[0]| == 2 then InvalidKwarg(keys[0][..1]) else UnpackError(keys[0])))
    decreases |keys|
  {
    if keys == [] then Finished(data)
    else if |keys[0]| != 2 then Stopped(UnpackError(keys[0]), data)
    else
      var field, value := keys[0][..1], keys[0][1..];
      if field in allowed then
        ApplyKeysAsWritten(data[field := Text(value)], keys[1..], allowed)
      else
        Stopped(InvalidKwarg(field), data)
  }

  /** The keyword names, in iteration order. */
  function Keys(kwargs: seq<(string, Value)>): seq<string> {
    seq(|kwargs|, i requires 0 <= i < |kwargs| => kwargs[i].0)
  }

  /** What `updateProgress` as written leaves behind. */
  datatype AsWrittenOutcome =
    | SavedAsWritten(store: Store, record: Document)
    | RaisedAsWritten(store: Store, record: Document, error: LoopError)

  /** `updateProgress` as written: it saves only when called with no keyword
      arguments at all, and then saves the record unchanged; any argument makes
      it raise before the save, with the record and the store untouched. */
  function UpdateProgressAsWritten(store: Store, record: Document, kwargs: seq<(string, Value)>): (r: AsWrittenOutcome)
    ensures r.SavedAsWritten? <==> kwargs == []
    ensures r.record.data == record.data
    ensures r.SavedAsWritten? ==> r.record == record.(id := r.record.id) && r.record.id.Some? && Get(r.store, r.record.id.value) == Some(r.record)
    ensures r.RaisedAsWritten? ==> r.store == store && r.record == record
  {
    assert forall f :: f in Progress.UpdatableFields ==> |f| != 1;
    match ApplyKeysAsWritten(record.data, Keys(kwargs), Progress.UpdatableFields)
    case Finished(data) =>
      var s := Save(store, record.(data := data));
      SavedAsWritten(s.store, s.doc)
    case Stopped(error, data) =>
      RaisedAsWritten(store, record.(data := data), error)
  }

  /** The documented call `updateProgress(record, current=50)` fails as written
      with an unpacking error and stores nothing, while the intended loop over
      (name, value) pairs saves the record with `current` set to 50. */
  lemma CurrentUpdateFailsAsWritten(store: Store, record: Document)
    ensures var kwargs := [("current", Num(50))];
      && UpdateProgressAsWritten(store, record, kwargs) == RaisedAsWritten(store, record, UnpackError("current"))
      && var intended := Progress.UpdateProgress(store, record, kwargs);
         intended.Saved? && intended.record.data == record.data["current" := Num(50)]
  {
  }
}
