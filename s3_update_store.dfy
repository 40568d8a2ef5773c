/**
 * The S3 update store: an adapter that writes updates under a write area and
 * reads them back from one or more read areas, and that is connected only
 * between a `credentialsAvailable` signal and the next `credentialsInvalid`.
 */
module S3Store {
  import opened Outcomes
  import opened Text
  import opened S3Namespace
  import opened S3Remote
  import opened S3Fetch

  /** The payload of a `credentialsAvailable` signal. */
  datatype Credentials =
    | Missing                         // null or undefined: reading its `userId` throws
    | Flag(value: bool)               // a bare flag, such as the `true` an access-key source signals
    | Record(userId: Option<string>)  // a credentials object, which may name the signed-in user

  /** `credentials.userId` is truthy: present and not the empty string. */
  predicate NamesUser(c: Credentials)
  {
    c.Record? && c.userId.Some? && c.userId.value != ""
  }

  /** JsonUtil's `toStore` and `fromStore`; `fromStore` may fail with a message. */
  datatype Codec = Codec(toStore: Update -> string, fromStore: string -> Result<Update, string>)

  // The availability state machine, on values.

  /** What the credential signals decide: whether there is an S3 handle, `storeAvailable`, and `userId`. */
  datatype Session = Session(connected: bool, available: bool, userId: Option<string>)

  /** The two signals the store subscribes to. */
  datatype Signal = Available(credentials: Credentials) | Invalid

  /** The session a new store starts in: no handle, unavailable, no user. */
  function InitialSession(): Session
  {
    Session(false, false, None)
  }

  /** `credentialsAvailable` and `credentialsInvalid`; a `Missing` payload throws before any of the store's fields changes. */
  function OnSignal(st: Session, sig: Signal): Session
  {
    match sig
    case Invalid => Session(false, false, st.userId)
    case Available(c) =>
      if c.Missing? then st
      else Session(true, true, if NamesUser(c) then c.userId else st.userId)
  }

  /** The session after a series of signals, delivered in order. */
  function Replay(st: Session, sigs: seq<Signal>): Session
    decreases |sigs|
  {
    if sigs == [] then st else Replay(OnSignal(st, sigs[0]), sigs[1..])
  }

  lemma {:induction false} ReplaySnoc(st: Session, sigs: seq<Signal>, sig: Signal)
    ensures Replay(st, sigs + [sig]) == OnSignal(Replay(st, sigs), sig)
    decreases |sigs|
  {
    if sigs == [] {
      assert [] + [sig] == [sig];
    } else {
      assert (sigs + [sig])[1..] == sigs[1..] + [sig];
      ReplaySnoc(OnSignal(st, sigs[0]), sigs[1..], sig);
    }
  }

  /** The user named by the latest signal that names one, or `default` if none does. */
  function LatestUser(sigs: seq<Signal>, default: Option<string>): Option<string>
    decreases |sigs|
  {
    if sigs == [] then default
    else
      var last := sigs[|sigs| - 1];
      if last.Available? && NamesUser(last.credentials) then last.credentials.userId
      else LatestUser(sigs[..|sigs| - 1], default)
  }

  /** Whether the latest signal that took effect was `credentialsAvailable`, or `default` if none took effect. */
  function LatestAvailability(sigs: seq<Signal>, default: bool): bool
    decreases |sigs|
  {
    if sigs == [] then default
    else
      var last := sigs[|sigs| - 1];
      if last == Available(Missing) then LatestAvailability(sigs[..|sigs| - 1], default)
      else last.Available?
  }

  /** `userId` is sticky: it is the latest user any signal named, and no signal ever clears it. */
  lemma {:induction false} ReplayUserId(st: Session, sigs: seq<Signal>)
    ensures Replay(st, sigs).userId == LatestUser(sigs, st.userId)
    decreases |sigs|
  {
    if sigs != [] {
      var init := sigs[..|sigs| - 1];
      assert sigs == init + [sigs[|sigs| - 1]];
      ReplaySnoc(st, init, sigs[|sigs| - 1]);
      ReplayUserId(st, init);
    }
  }

  /**
   * The store is available exactly when the latest effective signal was
   * `credentialsAvailable`, and it has an S3 handle exactly when it is available.
   */
  lemma {:induction false} ReplayAvailability(st: Session, sigs: seq<Signal>)
    requires st.connected == st.available
    ensures Replay(st, sigs).available == LatestAvailability(sigs, st.available)
    ensures Replay(st, sigs).connected == Replay(st, sigs).available
    decreases |sigs|
  {
    if sigs != [] {
      var init := sigs[..|sigs| - 1];
      assert sigs == init + [sigs[|sigs| - 1]];
      ReplaySnoc(st, init, sigs[|sigs| - 1]);
      ReplayAvailability(st, init);
    }
  }

  /** After signing out and back in with credentials that name nobody, the old user is still in place. */
  lemma SignOutKeepsUser(st: Session, c: Credentials)
    requires !c.Missing? && !NamesUser(c)
    ensures Replay(st, [Invalid, Available(c)]) == Session(true, true, st.userId)
  {
    var out := OnSignal(st, Invalid);
    assert [Invalid, Available(c)][1..] == [Available(c)];
    assert [Available(c)][1..] == [];
    assert Replay(out, [Available(c)]) == Replay(OnSignal(out, Available(c)), []);
  }

  // Reading back what was written.

  /**
   * When the write area is also read, a stored update is listed by the next
   * fetch: its key is new, lies under the write area's prefix and is not a
   * folder marker, so that prefix lists it (last, in the model's entry order)
   * and the fetch reads it.
   */
  lemma StoredUpdateIsListed(entries: seq<Entry>, bucketName: string, appId: string, dataSet: string,
                             writeArea: string, readAreas: seq<string>, now: nat, id: string,
                             userId: Option<string>, body: string)
    requires !Contains(appId, UserIdPlaceholder) && !Contains(dataSet, UserIdPlaceholder)
    requires !Contains(id, UserIdPlaceholder) && '$' !in UserIdText(userId)
    requires !EndsWith(id, "/") && writeArea in readAreas
    requires Lookup(entries, bucketName, WriteKey(appId, dataSet, writeArea, now, id, userId)).None?
    ensures var key := WriteKey(appId, dataSet, writeArea, now, id, userId);
            var prefix := ReadPrefix(appId, dataSet, writeArea, userId);
            ListKeys(Put(entries, bucketName, key, body), bucketName, prefix) == ListKeys(entries, bucketName, prefix) + [key] &&
            key in FetchKeys(Put(entries, bucketName, key, body), bucketName, ReadPrefixes(appId, dataSet, readAreas, userId))
  {
    var key := WriteKey(appId, dataSet, writeArea, now, id, userId);
    var prefix := ReadPrefix(appId, dataSet, writeArea, userId);
    var entries' := Put(entries, bucketName, key, body);
    var prefixes := ReadPrefixes(appId, dataSet, readAreas, userId);
    WriteKeyExtendsWritePrefix(appId, dataSet, writeArea, now, id, userId);
    assert StartsWith(key, prefix) by {
      assert key[..|prefix|] == prefix;
    }
    assert !EndsWith(key, "/") by {
      var b := BucketKey(now, id);
      assert key[|key| - 1] == b[|b| - 1];
      if id == [] {
        assert b[|b| - 1] == '-';
      } else {
        assert b[|b| - 1] == id[|id| - 1];
      }
    }
    ListKeysAfterPut(entries, bucketName, key, body, prefix);
    var i :| 0 <= i < |readAreas| && readAreas[i] == writeArea;
    var ls := Listings(entries', bucketName, prefixes);
    assert ls[i] == ListKeys(entries', bucketName, prefix);
    FlattenHasMember(ls, i, key);
  }

  /**
   * An update whose id ends in `/` is written under a key that ends in `/`,
   * which the listing filter drops as a folder marker: that update is stored
   * but no fetch ever reads it back, whatever the user id.
   */
  lemma FolderLikeIdIsNeverFetched(entries: seq<Entry>, bucketName: string, appId: string, dataSet: string,
                                   writeArea: string, prefixes: seq<string>, now: nat, id: string,
                                   userId: Option<string>)
    requires EndsWith(id, "/")
    ensures EndsWith(WriteKey(appId, dataSet, writeArea, now, id, userId), "/")
    ensures WriteKey(appId, dataSet, writeArea, now, id, userId) !in FetchKeys(entries, bucketName, prefixes)
  {
    var t := WriteKeyTemplate(appId, dataSet, writeArea, now, id);
    var key := WriteKey(appId, dataSet, writeArea, now, id, userId);
    assert EndsWith(t, "/") by {
      var b := BucketKey(now, id);
      assert t[|t| - 1] == b[|b| - 1] == id[|id| - 1];
    }
    assert '/' !in UserIdPlaceholder;
    ReplaceFirstKeepsLast(t, UserIdPlaceholder, UserIdText(userId), '/');
    if key in FetchKeys(entries, bucketName, prefixes) {
      FetchKeysAreStored(entries, bucketName, prefixes, key);
    }
  }

  /**
   * An id whose placeholder is filled by a user id ending in `/` (such as
   * `bob/`) also gives a key ending in `/`: the update `$USER_ID$` of that
   * user is stored but never fetched.
   */
  lemma PlaceholderIdOfSlashUserIsNeverFetched(entries: seq<Entry>, bucketName: string, prefixes: seq<string>,
                                               u: string)
    requires '$' !in u && EndsWith(u, "/")
    ensures WriteKey("app", "data", "w", 5, UserIdPlaceholder, Some(u)) == "app/data/w/5-" + u
    ensures WriteKey("app", "data", "w", 5, UserIdPlaceholder, Some(u)) !in FetchKeys(entries, bucketName, prefixes)
  {
    PlaceholderIdKey(u);
    EndsWithAppended("app/data/w/5-", u, '/');
    SlashEndedKeyIsNeverFetched(entries, bucketName, prefixes, "app/data/w/5-" + u);
  }

  /** A key ending in `/` is a folder marker to the listing filter, so no fetch returns it. */
  lemma SlashEndedKeyIsNeverFetched(entries: seq<Entry>, bucketName: string, prefixes: seq<string>, key: string)
    requires EndsWith(key, "/")
    ensures key !in FetchKeys(entries, bucketName, prefixes)
  {
    if key in FetchKeys(entries, bucketName, prefixes) {
      FetchKeysAreStored(entries, bucketName, prefixes, key);
    }
  }

  // The adapter.

  class S3UpdateStore {
    const bucketName: string
    const writeArea: string
    const readAreas: seq<string>
    const appId: string
    const dataSet: string
    const codec: Codec

    /** The S3 handle: the remote store while credentials are valid, null otherwise. */
    var s3: ObjectStore?
    var userId: Option<string>
    /** The value of the `storeAvailable` observable. */
    var storeAvailable: bool
    /** Every update sent on the `updateStored` event, oldest first. */
    var updateStored: seq<Update>
    /** Every batch sent on the `incomingUpdates` event, oldest first. */
    var incomingUpdates: seq<seq<Update>>

    /** The store is available exactly while it holds an S3 handle, and the remote holds one object per key. */
    ghost predicate Valid()
      reads this, s3
    {
      storeAvailable == (s3 != null) && (s3 != null ==> s3.Valid())
    }

    function Status(): Session
      reads this
    {
      Session(s3 != null, storeAvailable, userId)
    }

    /** The prefixes `_getUpdates` lists, one per read area, for the current user. */
    function Prefixes(): seq<string>
      reads this
    {
      ReadPrefixes(appId, dataSet, readAreas, userId)
    }

    constructor (bucketName: string, writeArea: string, readArea: ReadArea, appId: string, dataSet: string,
                 codec: Codec)
      ensures Valid() && Status() == InitialSession() && !storeAvailable
      ensures this.bucketName == bucketName && this.writeArea == writeArea
      ensures this.appId == appId && this.dataSet == dataSet && this.codec == codec
      ensures readArea.Area? ==> readAreas == [readArea.name]
      ensures readArea.Areas? ==> readAreas == readArea.names
      ensures updateStored == [] && incomingUpdates == []
    {
      this.bucketName := bucketName;
      this.writeArea := writeArea;
      this.readAreas := AsArray(readArea);
      this.appId := appId;
      this.dataSet := dataSet;
      this.codec := codec;
      s3 := null;
      userId := None;
      storeAvailable := false;
      updateStored := [];
      incomingUpdates := [];
    }

    /**
     * `storeUpdate`, with the clock reading `now` passed in and `putFails`
     * saying whether the remote rejects the write. Without a handle the write
     * is refused and nothing is sent; with one, `updateStored` is sent even
     * when the write itself failed.
     */
    method StoreUpdate(update: Update, now: nat, putFails: bool)
      requires Valid()
      modifies this, s3
      ensures Valid()
      ensures s3 == old(s3) && Status() == old(Status())
      ensures incomingUpdates == old(incomingUpdates)
      ensures old(s3) == null ==> updateStored == old(updateStored)
      ensures old(s3) != null ==> updateStored == old(updateStored) + [update]
      ensures old(s3) != null ==>
                s3.entries == if putFails then old(s3.entries)
                              else Put(old(s3.entries), bucketName,
                                       WriteKey(appId, dataSet, writeArea, now, update.id, userId),
                                       codec.toStore(update))
    {
      var key := WriteKey(appId, dataSet, writeArea, now, update.id, userId);
      var stored := StoreInS3(key, codec.toStore(update), putFails);
      if stored.Ok? {
        updateStored := updateStored + [update];
      }
    }

    /** `_storeInS3`: refused without a handle; a failed `putObject` is swallowed. */
    method StoreInS3(key: string, objectContent: string, putFails: bool) returns (r: Result<(), string>)
      requires Valid()
      modifies s3
      ensures Valid()
      ensures r == if s3 == null then Err("Store not available") else Ok(())
      ensures s3 != null ==>
                s3.entries == if putFails then old(s3.entries) else Put(old(s3.entries), bucketName, key, objectContent)
    {
      if s3 == null {
        return Err("Store not available");
      }
      if !putFails {
        s3.PutObject(bucketName, key, objectContent);
      }
      r := Ok(());
    }

    /**
     * The value `_getUpdates` resolves to: [] without a handle, and otherwise
     * the all-or-nothing fetch over the current prefixes.
     */
    function GetUpdates(faults: Faults): (us: seq<Update>)
      reads this, s3
      ensures s3 == null ==> us == []
      ensures s3 != null ==> us == FetchedUpdates(s3.entries, bucketName, Prefixes(), faults, codec.fromStore)
    {
      if s3 == null then [] else FetchedUpdates(s3.entries, bucketName, Prefixes(), faults, codec.fromStore)
    }

    /** `requestUpdates`: one `incomingUpdates` event carrying what `_getUpdates` resolved to. */
    method RequestUpdates(faults: Faults)
      requires Valid()
      modifies this
      ensures Valid()
      ensures incomingUpdates == old(incomingUpdates) + [old(GetUpdates(faults))]
      ensures s3 == old(s3) && Status() == old(Status()) && updateStored == old(updateStored)
    {
      var updates := GetUpdates(faults);
      incomingUpdates := incomingUpdates + [updates];
    }

    /**
     * `credentialsAvailable`, with `service` the remote a new S3 handle
     * reaches, which holds at most one object per key. It returns whether the call threw, which a `Missing` payload makes it do.
     */
    method CredentialsAvailable(credentials: Credentials, service: ObjectStore) returns (threw: bool)
      requires Valid() && service.Valid()
      modifies this
      ensures Valid()
      ensures threw == credentials.Missing?
      ensures Status() == OnSignal(old(Status()), Available(credentials))
      ensures s3 == if threw then old(s3) else service
      ensures updateStored == old(updateStored) && incomingUpdates == old(incomingUpdates)
    {
      if credentials.Missing? {
        return true;
      }
      if NamesUser(credentials) {
        userId := credentials.userId;
      }
      s3 := service;
      storeAvailable := true;
      threw := false;
    }

    /** `credentialsInvalid`: drop the handle and become unavailable; `userId` stays. */
    method CredentialsInvalid()
      requires Valid()
      modifies this
      ensures Valid()
      ensures s3 == null && Status() == OnSignal(old(Status()), Invalid)
      ensures updateStored == old(updateStored) && incomingUpdates == old(incomingUpdates)
    {
      s3 := null;
      storeAvailable := false;
    }
  }
}
