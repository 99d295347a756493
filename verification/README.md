# Girder progress notifications in Dafny

This project models the progress-notification logic of Girder's notification
model (`girder/models/notification.py`). A notification is a document that has
a `type`, the `userId` of the user it is addressed to, a `data` payload, a
creation `time` and an optional `expires` time. The database deletes a document
once its `expires` time has passed. A *progress* notification has the `data`
keys `title`, `total`, `current`, `state` and `message`. It describes a
long-running task, and the task reports its progress by updating the record in
place.

The model has five modules:

- `Wrappers` holds the `Option` type. It is used for a document's id, which is
  absent until the first save, and for `expires`.
- `ProgressStates` models `ProgressState`. It has four states:
  `queued`, `active`, `success` and `error`. Their stored strings are
  read back with `ParseState`. `IsComplete` is the classmethod
  `isComplete`, which takes a raw state string.
- `Notifications` defines the document and the store. The store maps ids to
  documents and holds the next fresh id. `Save` assigns a fresh id to a new
  document and replaces the stored copy of one that has an id. `CreateRecord`
  is `_createRecord`. `Expired` says when the database's expiry index removes
  a document.
- `Progress` holds `createProgressRecord` and `updateProgress`. The
  update loop becomes `ApplyKwargs`, over a sequence of (name, value) pairs with
  distinct names, because a keyword dictionary cannot hold a name twice. The
  result of `updateProgress` is `Saved` or `Raised`. In both cases the outcome
  also carries the caller's record, because the source changes that record in
  place.
- `ProgressAsWritten` models the update loop exactly as line 126 writes it
  (see Findings).

The clock is an explicit parameter `now`, an integer number of seconds. Ids are
natural numbers handed out by the store. `total` and `current` are integers.

Three points about the code's behaviour:

- The docstring of `createProgressRecord` (notification.py:78-79) says that
  records not updated for more than one hour are deleted. That suggests an
  update keeps a record alive, but `updateProgress` (lines 107-132) never
  writes `expires`. `Progress.UpdateDoesNotRenewLease` proves that a record
  expires one hour after its creation, however many updates follow.
- An update is not rejected atomically. The code writes the accepted fields
  into the caller's record before it reaches the refused one. It does, however,
  raise before `save`, so the store is unchanged.
- There is no not-found error. Saving a document whose id is no longer stored
  writes it back, as the database's save does.

## Model

| member | source | states |
|---|---|---|
| `ProgressStates.ParseState` | girder/models/notification.py:25-32 | a string reads back as a state exactly when it is that state's stored name, one of the four enum constants |
| `ProgressStates.ParseStateRoundTrip` | girder/models/notification.py:29-32 | a corollary of `ParseState`'s contract, stated by name: the four state names are distinct, so every state reads back as itself and only its own name reads back as it |
| `ProgressStates.IsComplete` | girder/models/notification.py:34-36 | a state string is complete exactly when it names `success` or `error`; a complete string always names a known state |
| `ProgressStates.IsCompleteOnStates` | girder/models/notification.py:29-36 | on the enum, completeness holds for `success` and `error` and fails for `queued` and `active` |
| `Notifications.Save` | girder/models/notification.py:72 | a saved document keeps its id or receives one not in use before; afterwards it is stored under that id, every other id is untouched, and the store's id invariant is kept |
| `Notifications.SaveTwice` | girder/models/notification.py:132 | saving the document a save returned, into the store it returned, changes nothing |
| `Notifications.CreateRecord` | girder/models/notification.py:58-72 | the new document has the given type and data, the user's id and the clock's time; it has `expires` if and only if one was passed; it is stored under a fresh id |
| `Progress.CreateProgressRecord` | girder/models/notification.py:74-105 | a progress record has type `progress` and exactly the five data keys carrying the arguments; it expires one hour after `now`; it is a well-formed progress document stored under a fresh id |
| `Progress.CreateProgressRecordDefaults` | girder/models/notification.py:74-75 | left to the defaults, the record's data has state `active`, current 0 and an empty message |
| `Progress.ProgressRecordLifetime` | girder/models/notification.py:96-105 | a new progress record's creation time lies before its expiry, and it is expired at `t` exactly when `t` is later than `now + 3600` |
| `Progress.FirstRejected` | girder/models/notification.py:126-130 | the position of the first argument outside the whitelist: all earlier names are updatable, and the one there is not |
| `Progress.ApplyKwargs` | girder/models/notification.py:126-130 | the loop accepts all arguments exactly when every name is in {total, current, state, message}; when it stops, it names a field given in the arguments and outside the whitelist |
| `Progress.ApplyKwargsStopsAtFirstRejected` | girder/models/notification.py:126-130 | the loop stops exactly at the first refused field, having written every earlier argument into the data and changed nothing else |
| `Progress.AcceptedOverwrites` | girder/models/notification.py:126-128 | an all-whitelisted update sets exactly the named data entries to the given values and keeps every other entry |
| `Progress.UpdateProgress` | girder/models/notification.py:107-132 | the record is saved if and only if every name is updatable; it then carries exactly the given values, its title and other entries are kept, and type, user, time and expiry are unchanged; otherwise the error names the first refused field, its message is `Invalid kwarg: ` followed by that name, the store is unchanged, and the caller's record holds only the fields accepted before it |
| `Progress.UpdateProgressIdempotent` | girder/models/notification.py:126-132 | applying a successful update a second time returns the same record and store |
| `Progress.UpdateKeepsProgressShape` | girder/models/notification.py:113-128 | an update whose values have the documented kinds is accepted and leaves a well-formed progress record |
| `Progress.UpdatesKeepExpiry` | girder/models/notification.py:107-132 | a sequence of updates, each applied to the record the previous one left, never changes the record's `expires` |
| `Progress.UpdateDoesNotRenewLease` | girder/models/notification.py:103-132 | for every title, total, state, current and message, after any number of updates a record created at `now` still expires exactly when the clock passes `now + 3600` |
| `ProgressAsWritten.ApplyKeysAsWritten` | girder/models/notification.py:126-130 | against a whitelist with no one-character name, such as the source's, the loop as written finishes only over no keys; otherwise it stops at the first key, with an unpacking error or an invalid one-character field; it never changes the data |
| `ProgressAsWritten.UpdateProgressAsWritten` | girder/models/notification.py:107-132 | `updateProgress` as written saves only when given no arguments, and never changes the record's data; given any argument, it raises with the store untouched |
| `ProgressAsWritten.CurrentUpdateFailsAsWritten` | girder/models/notification.py:126 | the call with `current=50` fails as written with an unpacking error, while the intended loop saves the record with current set to 50 |

## Left out

- Index setup (`initialize`, lines 49-52) is not modelled. Neither is the database's periodic expiry sweep. Both are done by the storage engine. `Notifications.Expired` states when a document is due for deletion.
- `validate` (lines 54-56) returns its argument unchanged and is not modelled.
- The real clock is not modelled. `datetime.now()` is the parameter `now`. The source reads the clock twice, at lines 103 and 66, and the model treats both reads as the same instant.
- `Model.save` and the base model are not part of this model. `Notifications.Save` assumes the database's save semantics: insert with a fresh id, or replace by id.
- Concurrent updaters and last-write-wins behaviour are not modelled. They are backend behaviour.
- `total` and `current` are modelled as integers, not floats. The rule that `total <= 0` means indeterminate progress is a convention only, and no code enforces it.
- The user document is reduced to its `_id`.
- In the Python 2 of this code, the iteration order of keyword arguments is arbitrary. The model fixes one order, the order of the sequence. That order decides which refused field is reported and which fields were already written.
- The model assumes that the clock behind `now` is the clock the database's expiry sweep reads. In the source, `time` and `expires` come from `datetime.now()`, which is naive local time, while the expiry index compares against the database's own clock.

## Findings

| source | as written | input that shows it | evidently intended | confidence | as-written member | corrected member |
|---|---|---|---|---|---|---|
| girder/models/notification.py:126 | the loop iterates the keyword dictionary itself. That yields only the names, and each name string is unpacked into the loop's two variables | `updateProgress(record, current=50)`: "current" cannot be unpacked into two values, so the call raises and nothing is saved | iterate over the (name, value) pairs of the keyword arguments | high, not executed | `ProgressAsWritten.CurrentUpdateFailsAsWritten` | `Progress.UpdateProgress` |
