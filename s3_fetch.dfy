/**
 * The fetch performed by `_getUpdates` once the store is connected: list
 * every read prefix, keep the keys that are not folder markers, read and
 * decode each object, and give back the decoded updates in key order, or
 * nothing at all when any step fails.
 */
module S3Fetch {
  import opened Outcomes
  import opened Text
  import opened S3Remote

  /** An update as the adapter sees it: its id and its opaque actions. */
  datatype Update = Update(id: string, actions: seq<string>)

  /**
   * The failures the remote produces during one fetch: the prefixes whose
   * listing fails and the keys whose `getObject` fails.
   */
  datatype Faults = Faults(failingLists: set<string>, failingGets: set<string>)

  const NoFaults: Faults := Faults({}, {})

  /** Why a fetch was abandoned. */
  datatype FetchError = ListFailed(prefix: string) | GetFailed(key: string) | DecodeFailed(message: string)

  /** The listing filter: keys ending in "/" are folder markers, not updates. */
  function UpdateKeys(keys: seq<string>): (r: seq<string>)
    ensures forall k :: k in r <==> k in keys && !EndsWith(k, "/")
  {
    if keys == [] then []
    else (if EndsWith(keys[0], "/") then [] else [keys[0]]) + UpdateKeys(keys[1..])
  }

  /** Filtering keeps the order: filtering two lists one after the other is filtering their concatenation. */
  lemma {:induction false} UpdateKeysConcat(a: seq<string>, b: seq<string>)
    ensures UpdateKeys(a + b) == UpdateKeys(a) + UpdateKeys(b)
  {
    if a != [] {
      assert (a + b)[0] == a[0];
      assert (a + b)[1..] == a[1..] + b;
      UpdateKeysConcat(a[1..], b);
    } else {
      assert a + b == b;
    }
  }

  /** `[].concat(...keyLists)`. */
  function Flatten(lists: seq<seq<string>>): seq<string>
  {
    if lists == [] then [] else lists[0] + Flatten(lists[1..])
  }

  lemma {:induction false} FlattenMember(lists: seq<seq<string>>, k: string)
    requires k in Flatten(lists)
    ensures exists i :: 0 <= i < |lists| && k in lists[i]
  {
    if k !in lists[0] {
      FlattenMember(lists[1..], k);
      var i :| 0 <= i < |lists[1..]| && k in lists[1..][i];
      assert k in lists[i + 1];
    }
  }

  /** A key of one listing is in the concatenation. */
  lemma {:induction false} FlattenHasMember(lists: seq<seq<string>>, i: nat, k: string)
    requires i < |lists| && k in lists[i]
    ensures k in Flatten(lists)
  {
    if i > 0 {
      FlattenHasMember(lists[1..], i - 1, k);
    }
  }

  /** The listing of every prefix, in prefix order. */
  function Listings(entries: seq<Entry>, bucket: string, prefixes: seq<string>): (ls: seq<seq<string>>)
    ensures |ls| == |prefixes|
    ensures forall i :: 0 <= i < |prefixes| ==> ls[i] == ListKeys(entries, bucket, prefixes[i])
  {
    if prefixes == [] then []
    else [ListKeys(entries, bucket, prefixes[0])] + Listings(entries, bucket, prefixes[1..])
  }

  /** The keys a fetch reads: all listings concatenated in prefix order, folder markers dropped. */
  function FetchKeys(entries: seq<Entry>, bucket: string, prefixes: seq<string>): seq<string>
  {
    UpdateKeys(Flatten(Listings(entries, bucket, prefixes)))
  }

  /** Every prefix can be listed. */
  predicate Listable(prefixes: seq<string>, faults: Faults)
  {
    forall i :: 0 <= i < |prefixes| ==> prefixes[i] !in faults.failingLists
  }

  /** Every key can be read and decoded. */
  predicate Readable(entries: seq<Entry>, bucket: string, keys: seq<string>, faults: Faults,
                     fromStore: string -> Result<Update, string>)
  {
    forall i :: 0 <= i < |keys| ==> GetObjectBody(entries, bucket, keys[i], faults, fromStore).Ok?
  }

  /** `getAllUpdateKeys`: list every prefix; one failed listing fails them all. */
  function ListAll(entries: seq<Entry>, bucket: string, prefixes: seq<string>, faults: Faults)
    : (r: Result<seq<string>, FetchError>)
    ensures r.Ok? <==> Listable(prefixes, faults)
    ensures r.Ok? ==> r.value == FetchKeys(entries, bucket, prefixes)
    ensures r.Err? ==> r.error.ListFailed? && r.error.prefix in prefixes
  {
    if prefixes == [] then Ok([])
    else if prefixes[0] in faults.failingLists then Err(ListFailed(prefixes[0]))
    else
      match ListAll(entries, bucket, prefixes[1..], faults)
      case Err(e) => Err(e)
      case Ok(rest) =>
        var first := ListKeys(entries, bucket, prefixes[0]);
        assert Listings(entries, bucket, prefixes) == [first] + Listings(entries, bucket, prefixes[1..]);
        UpdateKeysConcat(first, Flatten(Listings(entries, bucket, prefixes[1..])));
        Ok(UpdateKeys(first) + rest)
  }

  /** `getObjectBody`: read one object and decode it; a decoding error names the key. */
  function GetObjectBody(entries: seq<Entry>, bucket: string, key: string, faults: Faults,
                         fromStore: string -> Result<Update, string>): (r: Result<Update, FetchError>)
    ensures r.Err? && r.error.DecodeFailed? ==> Contains(r.error.message, " Key: " + key)
  {
    if key in faults.failingGets then Err(GetFailed(key))
    else
      match Lookup(entries, bucket, key)
      case None => Err(GetFailed(key))
      case Some(body) =>
        match fromStore(body)
        case Ok(u) => Ok(u)
        case Err(m) =>
          var message := m + " Key: " + key + "  Body: " + body;
          assert OccursAt(message, " Key: " + key, |m|) by {
            assert message[|m|..|m| + |" Key: " + key|] == " Key: " + key;
          }
          Err(DecodeFailed(message))
  }

  /** `getObjectsForKeys`: read every key; one failure fails them all, otherwise the updates come in key order. */
  function GetAll(entries: seq<Entry>, bucket: string, keys: seq<string>, faults: Faults,
                  fromStore: string -> Result<Update, string>): (r: Result<seq<Update>, FetchError>)
    ensures r.Ok? <==> Readable(entries, bucket, keys, faults, fromStore)
    ensures r.Ok? ==> (|r.value| == |keys| &&
              forall i :: 0 <= i < |keys| ==> r.value[i] == GetObjectBody(entries, bucket, keys[i], faults, fromStore).value)
  {
    if keys == [] then Ok([])
    else
      match GetObjectBody(entries, bucket, keys[0], faults, fromStore)
      case Err(e) => Err(e)
      case Ok(u) =>
        match GetAll(entries, bucket, keys[1..], faults, fromStore)
        case Err(e) => Err(e)
        case Ok(us) => Ok([u] + us)
  }

  /**
   * The value `_getUpdates` resolves to while connected: `getAllUpdateKeys`
   * then `getObjectsForKeys`, with any failure caught and turned into [].
   */
  function FetchedUpdates(entries: seq<Entry>, bucket: string, prefixes: seq<string>, faults: Faults,
                          fromStore: string -> Result<Update, string>): (us: seq<Update>)
    ensures var keys := FetchKeys(entries, bucket, prefixes);
            if Listable(prefixes, faults) && Readable(entries, bucket, keys, faults, fromStore)
            then |us| == |keys| &&
                 forall i :: 0 <= i < |keys| ==> us[i] == GetObjectBody(entries, bucket, keys[i], faults, fromStore).value
            else us == []
  {
    match ListAll(entries, bucket, prefixes, faults)
    case Err(_) => []
    case Ok(keys) =>
      match GetAll(entries, bucket, keys, faults, fromStore)
      case Err(_) => []
      case Ok(us) => us
  }

  /** Every key a fetch reads was listed under one of the prefixes and is stored. */
  lemma FetchKeysAreStored(entries: seq<Entry>, bucket: string, prefixes: seq<string>, k: string)
    requires k in FetchKeys(entries, bucket, prefixes)
    ensures !EndsWith(k, "/") && Lookup(entries, bucket, k).Some?
    ensures exists i :: 0 <= i < |prefixes| && StartsWith(k, prefixes[i])
  {
    var ls := Listings(entries, bucket, prefixes);
    FlattenMember(ls, k);
    var i :| 0 <= i < |ls| && k in ls[i];
    assert k in ListKeys(entries, bucket, prefixes[i]);
  }

  /**
   * With a remote that fails nothing and bodies that all decode, a fetch
   * returns one update per key, decoded from that key's body, in key order.
   */
  lemma FetchWithoutFaults(entries: seq<Entry>, bucket: string, prefixes: seq<string>,
                           fromStore: string -> Result<Update, string>)
    requires forall e :: e in entries ==> fromStore(e.body).Ok?
    ensures var keys := FetchKeys(entries, bucket, prefixes);
            var us := FetchedUpdates(entries, bucket, prefixes, NoFaults, fromStore);
            |us| == |keys| &&
            forall i :: 0 <= i < |keys| ==>
              Lookup(entries, bucket, keys[i]).Some? &&
              us[i] == fromStore(Lookup(entries, bucket, keys[i]).value).value
  {
    var keys := FetchKeys(entries, bucket, prefixes);
    forall i | 0 <= i < |keys|
      ensures Lookup(entries, bucket, keys[i]).Some?
      ensures GetObjectBody(entries, bucket, keys[i], NoFaults, fromStore)
           == Ok(fromStore(Lookup(entries, bucket, keys[i]).value).value)
    {
      FetchKeysAreStored(entries, bucket, prefixes, keys[i]);
    }
    assert Listable(prefixes, NoFaults);
    assert Readable(entries, bucket, keys, NoFaults, fromStore);
  }
}
