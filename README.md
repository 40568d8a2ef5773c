# Synchronizing store and S3 update store, modelled in Dafny

This project models two pieces of a JavaScript library that keeps application state in step across devices. Updates pass through a shared S3 bucket.

- **`S3UpdateStore`** is the remote adapter. It writes each update to the bucket under the key
  `appId/dataSet/writeArea/<timestamp>-<id>`. It reads updates back by listing the prefix
  `appId/dataSet/<area>/` of every read area, dropping folder markers (keys ending in `/`),
  and fetching and decoding every object. Any failure turns the whole fetch into `[]`.
  In every key and prefix, the first `$USER_ID$` is replaced by the current user id.
  The adapter is usable only between a `credentialsAvailable` signal and the next
  `credentialsInvalid`. Those two signals drive the S3 handle, the `storeAvailable` flag and
  a sticky `userId`.
- **`SynchronizingStore`** is a reducer-style container. `_updateState(name, args)` reads the
  property `name` of the current state. If it is a function, the state is replaced by that
  function's result. If it is not, the state is kept and the miss is reported. If reading the
  property throws (the state is null or undefined, or a getter throws), if the "not found"
  message cannot turn a state without `toString` into a string, or if the function throws, the exception
  propagates and the `state` reference is kept. `updateAndSave` also sends a dispatch `{type, data}`,
  and `applyAction` applies such an action without sending one.

Modules:

- `Outcomes` holds `Option` and `Result`.
- `Text` holds prefix and suffix tests. It also has JavaScript's non-global `String.prototype.replace`: leftmost match only, with the `$$`, `$&`, `` $` `` and `$'` replacement patterns. And it has decimal rendering and parsing of the timestamp.
- `S3Namespace` covers `asArray`, `bucketKey`, the write key and the read prefixes.
- `S3Remote` is the bucket as a sequence of entries, at most one per key, in the order the model lists them. It also has the class `ObjectStore`, whose `PutObject` changes the entries in place.
- `S3Fetch` is the all-or-nothing fetch of `_getUpdates`.
- `S3Store` has the class `S3UpdateStore`, and the credentials state machine on values (`Session`, `Signal`, `OnSignal`, `Replay`).
- `Synchronizing` has the class `SynchronizingStore` and the value-level `Invoke`, `Step`, `Run`, `Log` and `ApplyAll` with the replay lemmas.

Parameters stand in for everything outside the program:

- the clock reading (`now`);
- JSON encoding (`Codec`, whose decoder may fail);
- the remote's failures (`Faults` for listings and reads, `putFails` for a write);
- the remote a fresh S3 client reaches (`service`);
- the properties each application state offers (`MethodTable`).

The model follows the code on these points:

- `storeAvailable` is a boolean that starts `false`.
- A `userId` that was never set is written into keys as the text `undefined`. The key is not refused.
- A failed `putObject` is swallowed, and `updateStored` is still sent.
- `credentialsAvailable(false)` makes the store available. `credentialsAvailable(null)` throws and changes none of the store's fields.
- A user id is used as a replacement text, so its `$` patterns are expanded: the users `$` and `$$` read the same prefix (`S3Namespace.DollarUserIdsCollide`).

## Model

| member | source | states |
|---|---|---|
| Text.Find | main/store/S3UpdateStore.js:30 | a match exists iff the pattern occurs, and the one found is the leftmost occurrence |
| Text.Substitution | main/store/S3UpdateStore.js:30 | the replacement text with `$$`, `$&`, `` $` `` and `$'` expanded against the match and the text before and after it; any other `$` is copied |
| Text.SubstitutionOfPlainText | main/store/S3UpdateStore.js:30 | a replacement text without `$` is inserted literally |
| Text.ReplaceFirst | main/store/S3UpdateStore.js:30 | `s.replace(regex, rep)` without the `g` flag: the text is unchanged when the pattern does not occur, and otherwise only its leftmost occurrence is substituted (see `Text.ReplaceFirstAt`) |
| Text.ReplaceFirstAt | main/store/S3UpdateStore.js:30 | for any replacement text, only the leftmost occurrence is rewritten, into its expanded substitution, and the text before and after it, later occurrences included, is kept verbatim |
| Text.ReplaceFirstLiteralAt | main/store/S3UpdateStore.js:30 | a replacement text without `$` goes in literally in place of the leftmost occurrence |
| Text.Decimal | main/store/S3UpdateStore.js:11 | a timestamp renders as a non-empty string of digits without a leading zero |
| Text.ParseDecimalOfDecimal | main/store/S3UpdateStore.js:11 | the rendered timestamp reads back as the same number |
| S3Namespace.AsArray | main/store/S3UpdateStore.js:6 | `[].concat(readArea)`: one area becomes a one-element list, and a list is kept as it is |
| S3Namespace.UserIdText | main/store/S3UpdateStore.js:30 | the text of `this.userId` in a key: the user id, or `undefined` when none was ever set |
| S3Namespace.BucketKey | main/store/S3UpdateStore.js:10-12 | `<timestamp>-<id>`, read back by `S3Namespace.BucketKeyRoundTrip` |
| S3Namespace.BucketKeyRoundTrip | main/store/S3UpdateStore.js:10-12 | `<timestamp>-<id>` splits back into exactly that timestamp and id |
| S3Namespace.WriteKeyTemplate | main/store/S3UpdateStore.js:30 | `appId/dataSet/writeArea/<bucket key>` before the placeholder is filled in |
| S3Namespace.WriteKey | main/store/S3UpdateStore.js:28-30 | the template with its first `$USER_ID$` replaced by the user text; its layout is stated by `S3Namespace.WriteKeyLayout` |
| S3Namespace.WriteKeyWithoutPlaceholder | main/store/S3UpdateStore.js:28-30 | without a placeholder, the write key is exactly `appId/dataSet/writeArea/<timestamp>-<id>` |
| S3Namespace.WriteKeyLayout | main/store/S3UpdateStore.js:28-30 | with the placeholder in the write area, only its first occurrence there is replaced by the user id (or `undefined`), and the bucket key is kept verbatim |
| S3Namespace.ReadPrefix | main/store/S3UpdateStore.js:48 | every read prefix ends in `/`, whatever the user id |
| S3Namespace.ReadPrefixes | main/store/S3UpdateStore.js:47-48 | there is one prefix per read area, in read-area order |
| S3Namespace.ReadPrefixLayout | main/store/S3UpdateStore.js:48 | a read prefix is `appId/dataSet/<area with its first placeholder filled>/` |
| S3Namespace.WriteKeyExtendsWritePrefix | main/store/S3UpdateStore.js:28-30 | a written key is the write area's read prefix followed by the bucket key |
| S3Namespace.ReadPrefixDependsOnUser | main/store/S3UpdateStore.js:48 | for an area with the placeholder, different users without `$` get different prefixes |
| S3Namespace.PlaceholderIdKey | main/store/S3UpdateStore.js:29-30 | the first placeholder of the whole key is filled, the update id included: the update `$USER_ID$` goes under `app/data/w/5-` and the user text |
| S3Namespace.IdPlaceholderCollides | main/store/S3UpdateStore.js:29-30 | the update `$USER_ID$` of user `u` and the update `u`, written in the same millisecond, share one key, so the later put overwrites the earlier |
| S3Namespace.IdPlaceholderLeavesLayout | main/store/S3UpdateStore.js:29-30 | a key whose update id held the placeholder is not the write area's prefix followed by the bucket key |
| S3Namespace.DollarUserIdsCollide | main/store/S3UpdateStore.js:48 | the users `$` and `$$` get the same prefix, because `$$` in a replacement text stands for one `$` |
| S3Remote.Lookup | main/store/S3UpdateStore.js:60-63 | a found body is stored under that bucket and key, and a miss means no entry has them |
| S3Remote.ListKeys | main/store/S3UpdateStore.js:51-52 | a listing holds exactly the stored keys of the bucket that start with the prefix, and no key twice when the bucket holds one object per key |
| S3Remote.Put | main/store/S3UpdateStore.js:93 | `putObject`: the object at that key is overwritten, or a new entry is added; the effect is stated by `S3Remote.LookupAfterPut` and `S3Remote.ListKeysAfterPut` |
| S3Remote.PutKeepsUniqueKeys | main/store/S3UpdateStore.js:93 | a put keeps the bucket at one object per key |
| S3Remote.LookupAfterPut | main/store/S3UpdateStore.js:87-93 | after a put, the key holds the new body and every other key keeps its own |
| S3Remote.ListKeysAfterPut | main/store/S3UpdateStore.js:87-93 | a new key is added to each listing whose prefix it starts with (after the others in the model's entry order), and an overwrite leaves listings unchanged |
| S3Remote.ObjectStore.constructor | main/store/S3UpdateStore.js:105 | the remote a new S3 client reaches starts with the given objects, one per key |
| S3Remote.ObjectStore.PutObject | main/store/S3UpdateStore.js:93 | the remote's new contents are the old ones with the object written, still one object per key |
| S3Fetch.UpdateKeys | main/store/S3UpdateStore.js:52 | a key is kept iff it was listed and does not end in `/` |
| S3Fetch.UpdateKeysConcat | main/store/S3UpdateStore.js:52-57 | filtering each listing and concatenating is filtering the concatenation, with order kept |
| S3Fetch.Flatten | main/store/S3UpdateStore.js:57 | `[].concat(...keyLists)`: the listings joined in order; its members are stated by `S3Fetch.FlattenMember` and `S3Fetch.FlattenHasMember` |
| S3Fetch.FlattenMember | main/store/S3UpdateStore.js:57 | every key of the concatenation comes from one of the listings |
| S3Fetch.FlattenHasMember | main/store/S3UpdateStore.js:57 | a key of one listing is in the concatenation |
| S3Fetch.Listings | main/store/S3UpdateStore.js:56 | there is one listing per prefix, in prefix order |
| S3Fetch.FetchKeys | main/store/S3UpdateStore.js:51-57 | the update keys of every prefix, prefix after prefix, as `getAllUpdateKeys` gives them when nothing fails; stated by `S3Fetch.FetchKeysAreStored` |
| S3Fetch.ListAll | main/store/S3UpdateStore.js:55-58 | listing succeeds iff no prefix fails, yields the filtered keys in prefix order, and otherwise names a failing prefix |
| S3Fetch.GetObjectBody | main/store/S3UpdateStore.js:60-69 | a decode error's message contains ` Key: ` followed by the key |
| S3Fetch.GetAll | main/store/S3UpdateStore.js:72-75 | reading succeeds iff every key reads and decodes, and gives one update per key in key order |
| S3Fetch.FetchedUpdates | main/store/S3UpdateStore.js:77-80 | a fetch with any failing listing, read or decode gives `[]`; otherwise the updates come in key order |
| S3Fetch.FetchKeysAreStored | main/store/S3UpdateStore.js:51-57 | every fetched key is stored, is no folder marker, and lies under one of the prefixes |
| S3Fetch.FetchWithoutFaults | main/store/S3UpdateStore.js:46-81 | with no failures, the fetch decodes each key's stored body, in key order |
| S3Store.NamesUser | main/store/S3UpdateStore.js:101 | `credentials.userId` is truthy: the payload is an object whose `userId` is present and not empty |
| S3Store.InitialSession | main/store/S3UpdateStore.js:14-19 | the session a new store starts in: no handle, unavailable, no user |
| S3Store.OnSignal | main/store/S3UpdateStore.js:96-114 | one credentials signal on the store's fields: `credentialsAvailable` with a payload sets the handle, makes the store available and keeps a truthy user id, a null one throws and changes none of the store's fields, and `credentialsInvalid` clears the handle; stated over series by `S3Store.ReplayUserId` and `S3Store.ReplayAvailability` |
| S3Store.Replay | main/store/S3UpdateStore.js:96-114 | the session after a series of credential signals, each on the session the earlier ones left; stated by `S3Store.ReplaySnoc`, `S3Store.ReplayUserId` and `S3Store.ReplayAvailability` |
| S3Store.ReplaySnoc | main/store/S3UpdateStore.js:96-114 | signals are processed one after another, the last one on the state the earlier ones left |
| S3Store.ReplayUserId | main/store/S3UpdateStore.js:101-103 | `userId` is the user named by the latest signal that named one; no signal clears it |
| S3Store.ReplayAvailability | main/store/S3UpdateStore.js:96-114 | the store is available iff the latest signal that took effect was `credentialsAvailable`, and has a handle iff available |
| S3Store.SignOutKeepsUser | main/store/S3UpdateStore.js:101-112 | signing out and back in with credentials naming nobody leaves the old user in place |
| S3Store.StoredUpdateIsListed | main/store/S3UpdateStore.js:27-58 | when the write area is read, a newly stored key is listed under its prefix (last, in the model's entry order) and is fetched |
| S3Store.FolderLikeIdIsNeverFetched | main/store/S3UpdateStore.js:27-57 | an update whose id ends in `/` is written under a key ending in `/`, which the listing filter drops, so no fetch reads it back, whatever the user id |
| S3Store.PlaceholderIdOfSlashUserIsNeverFetched | main/store/S3UpdateStore.js:27-57 | for a user id without `$` that ends in `/`, such as `bob/`, the update `$USER_ID$` is written under a key ending in `/`, which the listing filter drops, so no fetch reads it back |
| S3Store.S3UpdateStore.constructor | main/store/S3UpdateStore.js:14-19 | the store starts without a handle, unavailable, with no user, the read areas normalised, and empty event logs; the first signal the credentials subscription delivers is a separate `CredentialsAvailable` call |
| S3Store.S3UpdateStore.StoreUpdate | main/store/S3UpdateStore.js:27-36 | it writes under the templated key; `updateStored` gets the update iff there was a handle, even if the write failed |
| S3Store.S3UpdateStore.StoreInS3 | main/store/S3UpdateStore.js:83-94 | without a handle it rejects with "Store not available" and writes nothing; otherwise it succeeds, writing unless the put fails |
| S3Store.S3UpdateStore.Prefixes | main/store/S3UpdateStore.js:47-48 | the prefixes `_getUpdates` lists: one per read area, built from the current `userId` |
| S3Store.S3UpdateStore.GetUpdates | main/store/S3UpdateStore.js:46-81 | without a handle it gives `[]`; otherwise it is the all-or-nothing fetch over the current prefixes |
| S3Store.S3UpdateStore.RequestUpdates | main/store/S3UpdateStore.js:38-44 | one `incomingUpdates` event carries exactly what the fetch gave, and nothing else changes |
| S3Store.S3UpdateStore.CredentialsAvailable | main/store/S3UpdateStore.js:96-108 | it sets the handle, makes the store available and overwrites `userId` only with a truthy one; a null payload throws and changes none of the store's fields |
| S3Store.S3UpdateStore.CredentialsInvalid | main/store/S3UpdateStore.js:110-114 | it clears the handle, makes the store unavailable and keeps `userId` |
| Synchronizing.Invoke | main/store/SynchronizingStore.js:26-32 | what `_updateState` meets: a property that is not a function returns with the state kept, an unreadable property (a null or undefined state) throws, and a function returns its result or throws |
| Synchronizing.Step | main/store/SynchronizingStore.js:25-33 | the state after `_updateState`: the method's result, or the old state when the method is missing or the update throws |
| Synchronizing.DispatchOf | main/store/SynchronizingStore.js:22 | the dispatch has the method's name as type and the first argument, or undefined, as data |
| Synchronizing.Saves | main/store/SynchronizingStore.js:18-22 | `updateAndSave` reaches its dispatch iff the update does not throw and there is at most one argument |
| Synchronizing.Run | main/store/SynchronizingStore.js:17-18 | the state after a series of `updateAndSave` calls, each on the state the earlier ones left; stated by `Synchronizing.RunSnoc` |
| Synchronizing.Log | main/store/SynchronizingStore.js:17-23 | the dispatches a series of `updateAndSave` calls sends; stated by `Synchronizing.LogSnoc` |
| Synchronizing.ApplyAll | main/store/SynchronizingStore.js:38-40 | the state after `applyAction` on each action in turn; related to the calls by `Synchronizing.ReplayLog` |
| Synchronizing.ReplayStep | main/store/SynchronizingStore.js:22-39 | applying the dispatch of a replayable call updates the state exactly as the call did |
| Synchronizing.ReplayLog | main/store/SynchronizingStore.js:17-40 | replaying the dispatch log of calls that each replay faithfully reaches the state those calls reached; a call that threw left neither a change nor a dispatch |
| Synchronizing.ReplayReproducesState | main/store/SynchronizingStore.js:17-40 | for one-argument calls, replaying the dispatch log reproduces the saved state exactly |
| Synchronizing.LogSnoc | main/store/SynchronizingStore.js:17-22 | each call adds exactly one dispatch, after the earlier ones, iff it reaches its dispatch |
| Synchronizing.RunSnoc | main/store/SynchronizingStore.js:18 | each call updates the state left by the earlier ones |
| Synchronizing.UnsavedChange | main/store/SynchronizingStore.js:18-21 | a call with several arguments updates the state but adds no dispatch |
| Synchronizing.ThrowingCallLeavesNoTrace | main/store/SynchronizingStore.js:18-32 | a call whose update throws changes neither the state nor the log |
| Synchronizing.MissingMethodIsDispatched | main/store/SynchronizingStore.js:18-31 | a call naming a property that is not a function keeps the state and is still dispatched |
| Synchronizing.SynchronizingStore.constructor | main/store/SynchronizingStore.js:5-7 | the state is the initial state, and no dispatch has been sent |
| Synchronizing.SynchronizingStore.AppState | main/store/SynchronizingStore.js:13-15 | it returns the current state and changes nothing |
| Synchronizing.SynchronizingStore.UpdateState | main/store/SynchronizingStore.js:25-33 | a found method replaces the state by its result; a missing one keeps the state and is reported; a throw keeps the state and is signalled to the caller |
| Synchronizing.SynchronizingStore.UpdateAndSave | main/store/SynchronizingStore.js:17-23 | it updates the state, then sends one dispatch iff the update did not throw and there is at most one argument; it throws otherwise |
| Synchronizing.SynchronizingStore.ApplySnapshot | main/store/SynchronizingStore.js:35-36 | it changes nothing |
| Synchronizing.SynchronizingStore.ApplyAction | main/store/SynchronizingStore.js:38-40 | it is `_updateState(type, [data])`, throws when that throws, and sends no dispatch |

## Left out

- AWS SDK calls and the global `AWS.config` writes (region, credentials) are foreign calls. The bucket is a sequence of entries. A new client is the `service` parameter, and failures are parameters.
- `Date.now()` is the clock. It is the parameter `now`.
- `JsonUtil.toStore`/`fromStore` are not part of this model. They are the opaque `Codec` parameter, whose decoder fails with a message.
- Promise concurrency: the listings and reads of a fetch run in sequence. `updateStored` and `incomingUpdates` are sent within the call rather than when a promise settles. When several steps fail, which error is reported is not modelled, because the error is caught and discarded anyway.
- S3 listing pages hold at most 1000 keys and are in ascending key order. The model lists every matching key in the order the entries are kept, so a listing beyond one page is not modelled, and "after the others" in a listing holds only in the model's order; membership holds in both.
- Read areas whose prefixes overlap list one key twice, so the fetch reads that object twice. The model keeps this, as the code does.
- Console logging is left out. The one report that matters, a method reported as not found, is kept as the `missing` log of `SynchronizingStore`.
- The `lsd-observable` wiring (`sendTo`, `bindFunctions`) is a library. Observable values are fields. Events are append-only logs.
- `AccessKeyCredentialsSource` and the synchronization engine that drives these stores are not part of this model.
- Credentials are modelled only as null/undefined, a bare boolean, or an object with an optional string `userId`. Other truthy `userId` values, such as numbers, are not modelled.
- State methods are modelled as functions that return a new state. A method that changes its own state object in place, before it returns or throws, is not modelled: the model keeps only the `state` reference, which a throw leaves as it was.
- The subscriptions to `credentialsAvailable` and `credentialsInvalid` made by the constructor are not modelled as such. A signal the credentials source delivers, including one it delivers at once on subscription because its value is already set, is a separate `CredentialsAvailable` or `CredentialsInvalid` call.
- The kind of exception a throwing state method raises is not modelled, only that it throws; the exception itself is the `threw` result.
- Text.Decimal: integers from 10^21 on are printed by JavaScript in exponent notation; the model renders every timestamp in plain digits.
- S3Namespace.WriteKeyLayout, S3Namespace.ReadPrefixLayout and S3Namespace.WriteKeyExtendsWritePrefix: these assume the user id has no `$`, and that `appId` and `dataSet` hold no placeholder; `S3Namespace.WriteKeyExtendsWritePrefix` also assumes the update id holds none (`S3Namespace.WriteKeyLayout` needs no such assumption, because the placeholder in the write area comes first). A `$` in a replacement string is a substitution pattern in JavaScript (for instance `$&` inserts the match). `Text.ReplaceFirst` models those patterns, but the layout lemmas do not cover them. When `appId`, `dataSet` and the write area hold no placeholder, a `$USER_ID$` in the update id is the one filled in, so the key is no longer the write prefix followed by the bucket key (`S3Namespace.IdPlaceholderLeavesLayout`), and two updates can share one key (`S3Namespace.IdPlaceholderCollides`).
- S3Namespace.ReadPrefixDependsOnUser: it needs user ids without `$`. With `$` it is false: `S3Namespace.DollarUserIdsCollide` shows two users sharing one prefix.
- S3Store.StoredUpdateIsListed: it needs `appId`, `dataSet` and the update id without a placeholder, a user id without `$`, and an update id that does not end in `/`. For a user id such as `$'` the written key expands differently from the read prefix, and the store does not read back its own writes. For an update id ending in `/` the written key ends in `/`, the listing filter drops it as a folder marker, and that update is never read back (`S3Store.FolderLikeIdIsNeverFetched`). The same happens to an update id whose placeholder is filled by a user id ending in `/` (`S3Store.PlaceholderIdOfSlashUserIsNeverFetched`).
- Synchronizing.ReplayLog: a call with no arguments is replayed with one `undefined` argument. The lemma covers such a call only when its method treats `[]` and `[undefined]` alike (`Synchronizing.Replayable`).
