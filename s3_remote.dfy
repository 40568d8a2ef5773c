/**
 * The remote object store the S3 adapter talks to, reduced to what the
 * adapter uses: objects named by bucket and key, listed by key prefix,
 * fetched by key and written by key. The entries are kept in the order the
 * store lists them.
 */
module S3Remote {
  import opened Outcomes
  import opened Text

  /** One stored object. */
  datatype Entry = Entry(bucket: string, key: string, body: string)

  /** The body stored under `key` in `bucket`, if any. */
  function Lookup(entries: seq<Entry>, bucket: string, key: string): (r: Option<string>)
    ensures r.Some? ==> Entry(bucket, key, r.value) in entries
    ensures r.None? ==> forall e :: e in entries ==> e.bucket != bucket || e.key != key
  {
    if entries == [] then None
    else if entries[0].bucket == bucket && entries[0].key == key then Some(entries[0].body)
    else Lookup(entries[1..], bucket, key)
  }

  /** A bucket holds at most one object per key: no entry shares its bucket and key with a later one. */
  predicate UniqueKeys(entries: seq<Entry>)
    decreases |entries|
  {
    entries == [] || (Lookup(entries[1..], entries[0].bucket, entries[0].key).None? && UniqueKeys(entries[1..]))
  }

  /** No key is listed twice. */
  predicate NoDuplicates(keys: seq<string>)
  {
    forall i, j :: 0 <= i < j < |keys| ==> keys[i] != keys[j]
  }

  /** `putObject`: overwrite the object at `key` in `bucket`, or add it after the existing ones. */
  function Put(entries: seq<Entry>, bucket: string, key: string, body: string): seq<Entry>
  {
    if entries == [] then [Entry(bucket, key, body)]
    else if entries[0].bucket == bucket && entries[0].key == key then [Entry(bucket, key, body)] + entries[1..]
    else [entries[0]] + Put(entries[1..], bucket, key, body)
  }

  /** `listObjectsV2` for a prefix: the keys of `bucket` that start with `prefix`, in listing order. */
  function ListKeys(entries: seq<Entry>, bucket: string, prefix: string): (keys: seq<string>)
    ensures forall k :: k in keys ==> StartsWith(k, prefix) && Lookup(entries, bucket, k).Some?
    ensures forall e :: e in entries && e.bucket == bucket && StartsWith(e.key, prefix) ==> e.key in keys
    ensures UniqueKeys(entries) ==> NoDuplicates(keys)
  {
    if entries == [] then []
    else
      var rest := ListKeys(entries[1..], bucket, prefix);
      assert forall e :: e in entries[1..] ==> e in entries;
      if entries[0].bucket == bucket && StartsWith(entries[0].key, prefix) then
        assert UniqueKeys(entries) ==> NoDuplicates([entries[0].key] + rest) by {
          if UniqueKeys(entries) {
            assert entries[0].key !in rest;
            ConsNoDuplicates(entries[0].key, rest);
          }
        }
        [entries[0].key] + rest
      else rest
  }

  /** A key that is not in a list without duplicates can go in front of it. */
  lemma ConsNoDuplicates(k: string, rest: seq<string>)
    requires k !in rest && NoDuplicates(rest)
    ensures NoDuplicates([k] + rest)
  {
    var keys := [k] + rest;
    forall i, j | 0 <= i < j < |keys| ensures keys[i] != keys[j] {
      assert keys[j] == rest[j - 1];
      if i > 0 {
        assert keys[i] == rest[i - 1];
      }
    }
  }

  /** Writing an object never puts a second one under the same key. */
  lemma {:induction false} PutKeepsUniqueKeys(entries: seq<Entry>, bucket: string, key: string, body: string)
    requires UniqueKeys(entries)
    ensures UniqueKeys(Put(entries, bucket, key, body))
  {
    var put := Put(entries, bucket, key, body);
    if entries == [] {
      assert put == [Entry(bucket, key, body)];
    } else if entries[0].bucket == bucket && entries[0].key == key {
      assert put[0] == Entry(bucket, key, body) && put[1..] == entries[1..];
    } else {
      var e := entries[0];
      assert put[0] == e && put[1..] == Put(entries[1..], bucket, key, body);
      PutKeepsUniqueKeys(entries[1..], bucket, key, body);
      LookupAfterPut(entries[1..], bucket, key, body, e.bucket, e.key);
    }
  }

  /** After a put, the key holds the new body and every other key keeps its own. */
  lemma {:induction false} LookupAfterPut(entries: seq<Entry>, bucket: string, key: string, body: string,
                                          bucket': string, key': string)
    ensures Lookup(Put(entries, bucket, key, body), bucket', key')
         == if bucket' == bucket && key' == key then Some(body) else Lookup(entries, bucket', key')
  {
    if entries != [] && !(entries[0].bucket == bucket && entries[0].key == key) {
      LookupAfterPut(entries[1..], bucket, key, body, bucket', key');
    }
  }

  /**
   * Putting a new key adds it to every listing whose prefix it starts with
   * (after the others, in the model's entry order; S3 itself lists keys in
   * ascending order); overwriting an existing key leaves every listing as it was.
   */
  lemma {:induction false} ListKeysAfterPut(entries: seq<Entry>, bucket: string, key: string, body: string, prefix: string)
    ensures Lookup(entries, bucket, key).Some? ==>
              ListKeys(Put(entries, bucket, key, body), bucket, prefix) == ListKeys(entries, bucket, prefix)
    ensures Lookup(entries, bucket, key).None? ==>
              ListKeys(Put(entries, bucket, key, body), bucket, prefix)
              == ListKeys(entries, bucket, prefix) + (if StartsWith(key, prefix) then [key] else [])
  {
    var put := Put(entries, bucket, key, body);
    var added: seq<string> := if StartsWith(key, prefix) then [key] else [];
    if entries == [] {
      assert put == [Entry(bucket, key, body)];
      assert ListKeys(put, bucket, prefix) == added + ListKeys([], bucket, prefix);
    } else if entries[0].bucket == bucket && entries[0].key == key {
      assert put[0] == Entry(bucket, key, body) && put[1..] == entries[1..];
    } else {
      var e := entries[0];
      var first: seq<string> := if e.bucket == bucket && StartsWith(e.key, prefix) then [e.key] else [];
      assert put[0] == e && put[1..] == Put(entries[1..], bucket, key, body);
      assert ListKeys(put, bucket, prefix) == first + ListKeys(put[1..], bucket, prefix);
      assert ListKeys(entries, bucket, prefix) == first + ListKeys(entries[1..], bucket, prefix);
      assert Lookup(entries, bucket, key) == Lookup(entries[1..], bucket, key);
      ListKeysAfterPut(entries[1..], bucket, key, body, prefix);
      Associates(first, ListKeys(entries[1..], bucket, prefix), added);
    }
  }

  /** The remote store, whose contents `putObject` changes in place. */
  class ObjectStore {
    var entries: seq<Entry>

    /** The bucket holds at most one object per key. */
    ghost predicate Valid()
      reads this
    {
      UniqueKeys(entries)
    }

    constructor (entries: seq<Entry>)
      requires UniqueKeys(entries)
      ensures Valid() && this.entries == entries
    {
      this.entries := entries;
    }

    method PutObject(bucket: string, key: string, body: string)
      requires Valid()
      modifies this
      ensures Valid() && entries == Put(old(entries), bucket, key, body)
    {
      PutKeepsUniqueKeys(entries, bucket, key, body);
      entries := Put(entries, bucket, key, body);
    }
  }
}
