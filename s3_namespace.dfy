/**
 * Where the S3 update store reads and writes: the read-area list built from
 * the constructor's `readArea`, the object key `storeUpdate` writes an update
 * under, and the key prefixes `_getUpdates` lists. In every key and prefix the
 * first `$USER_ID$` is replaced by the current user id.
 */
module S3Namespace {
  import opened Outcomes
  import opened Text

  /** The placeholder for the signed-in user; the pattern `/\$USER_ID\$/` matches it literally. */
  const UserIdPlaceholder: string := "$USER_ID$"

  /** The constructor's `readArea` argument: one area or an array of areas. */
  datatype ReadArea = Area(name: string) | Areas(names: seq<string>)

  /** `asArray(readArea)`, that is `[].concat(readArea)`. */
  function AsArray(readArea: ReadArea): seq<string>
  {
    match readArea
    case Area(name) => [name]
    case Areas(names) => names
  }

  /** The text a template literal or `replace` makes of `this.userId`: "undefined" while it was never set. */
  function UserIdText(userId: Option<string>): string
  {
    match userId
    case None => "undefined"
    case Some(u) => u
  }

  /** `S3UpdateStore.bucketKey(id)`, with the clock reading `now` (milliseconds) passed in. */
  function BucketKey(now: nat, id: string): string
  {
    Decimal(now) + "-" + id
  }

  /** Reads a key of the form `<timestamp>-<id>` back into its timestamp and id. */
  function SplitBucketKey(key: string): Option<(nat, string)>
  {
    match Find(key, "-")
    case None => None
    case Some(i) =>
      if IsDigits(key[..i]) then Some((ParseDecimal(key[..i]), key[i + 1..])) else None
  }

  /** The key written by `storeUpdate`, before the user placeholder is filled in. */
  function WriteKeyTemplate(appId: string, dataSet: string, writeArea: string, now: nat, id: string): string
  {
    appId + "/" + dataSet + "/" + writeArea + "/" + BucketKey(now, id)
  }

  /** The key written by `storeUpdate`. */
  function WriteKey(appId: string, dataSet: string, writeArea: string, now: nat, id: string,
                    userId: Option<string>): string
  {
    ReplaceFirst(WriteKeyTemplate(appId, dataSet, writeArea, now, id), UserIdPlaceholder, UserIdText(userId))
  }

  /** The prefix listed for one read area. */
  function ReadPrefix(appId: string, dataSet: string, area: string, userId: Option<string>): (prefix: string)
    ensures EndsWith(prefix, "/")
  {
    var template := appId + "/" + dataSet + "/" + area + "/";
    ReplaceFirstKeepsLast(template, UserIdPlaceholder, UserIdText(userId), '/');
    ReplaceFirst(template, UserIdPlaceholder, UserIdText(userId))
  }

  /** `readAreas.map(...)`: one prefix per read area, in the same order. */
  function ReadPrefixes(appId: string, dataSet: string, areas: seq<string>, userId: Option<string>): (prefixes: seq<string>)
    ensures |prefixes| == |areas|
    ensures forall i :: 0 <= i < |areas| ==>
              prefixes[i] == ReadPrefix(appId, dataSet, areas[i], userId) && EndsWith(prefixes[i], "/")
  {
    if areas == [] then []
    else [ReadPrefix(appId, dataSet, areas[0], userId)] + ReadPrefixes(appId, dataSet, areas[1..], userId)
  }

  // Properties of the key layout.

  lemma DigitsHaveNoPlaceholder(d: string)
    requires IsDigits(d)
    ensures !Contains(d, UserIdPlaceholder)
  {
    forall i: nat | i <= |d| ensures !OccursAt(d, UserIdPlaceholder, i) {
      if i + 9 <= |d| {
        assert d[i..i + 9][0] == d[i];
      }
    }
  }

  /** The key `<timestamp>-<id>` gives back the timestamp and the id it was made from. */
  lemma BucketKeyRoundTrip(now: nat, id: string)
    ensures SplitBucketKey(BucketKey(now, id)) == Some((now, id))
  {
    var d := Decimal(now);
    var key := BucketKey(now, id);
    assert key == d + ['-'] + id;
    forall j: nat | j < |d| ensures !OccursAt(key, "-", j) {
      assert key[j..j + 1][0] == d[j];
    }
    assert key[|d|..|d| + 1] == "-";
    assert FirstAt(key, "-", |d|);
    FirstAtUnique(key, "-", |d|, Find(key, "-").value);
    assert key[..|d|] == d;
    assert key[|d| + 1..] == id;
    ParseDecimalOfDecimal(now);
  }

  /** With no placeholder in any part, the write key is exactly `appId/dataSet/writeArea/<timestamp>-<id>`. */
  lemma WriteKeyWithoutPlaceholder(appId: string, dataSet: string, writeArea: string, now: nat, id: string,
                                   userId: Option<string>)
    requires !Contains(appId, UserIdPlaceholder) && !Contains(dataSet, UserIdPlaceholder)
    requires !Contains(writeArea, UserIdPlaceholder) && !Contains(id, UserIdPlaceholder)
    ensures WriteKey(appId, dataSet, writeArea, now, id, userId)
         == appId + "/" + dataSet + "/" + writeArea + "/" + Decimal(now) + "-" + id
  {
    var p := UserIdPlaceholder;
    var k := Decimal(now) + ['-'] + id;
    var w := writeArea + ['/'] + k;
    var dw := dataSet + ['/'] + w;
    var t := appId + ['/'] + dw;
    DigitsHaveNoPlaceholder(Decimal(now));
    FindPastClean(Decimal(now), '-', id, p);
    FindPastClean(writeArea, '/', k, p);
    FindPastClean(dataSet, '/', w, p);
    FindPastClean(appId, '/', dw, p);
    assert t == WriteKeyTemplate(appId, dataSet, writeArea, now, id);
  }

  /** Two leading segments free of the placeholder are kept, and the replacement happens in the rest. */
  lemma ReplaceAfterTwoSegments(a: string, b: string, rest: string, u: string)
    requires !Contains(a, UserIdPlaceholder) && !Contains(b, UserIdPlaceholder) && '$' !in u
    ensures ReplaceFirst(a + "/" + b + "/" + rest, UserIdPlaceholder, u)
         == a + "/" + b + "/" + ReplaceFirst(rest, UserIdPlaceholder, u)
  {
    var p := UserIdPlaceholder;
    var r := ReplaceFirst(rest, p, u);
    ReplaceFirstPastClean(b, '/', rest, p, u);
    ReplaceFirstPastClean(a, '/', b + ['/'] + rest, p, u);
    assert a + "/" + b + "/" + rest == a + ['/'] + (b + ['/'] + rest);
    assert a + "/" + b + "/" + r == a + ['/'] + (b + ['/'] + r);
  }

  /** When the write area holds the placeholder (and appId and dataSet do not), only the area is rewritten. */
  lemma WriteKeyLayout(appId: string, dataSet: string, writeArea: string, now: nat, id: string,
                       userId: Option<string>)
    requires !Contains(appId, UserIdPlaceholder) && !Contains(dataSet, UserIdPlaceholder)
    requires Contains(writeArea, UserIdPlaceholder) && '$' !in UserIdText(userId)
    ensures WriteKey(appId, dataSet, writeArea, now, id, userId)
         == appId + "/" + dataSet + "/" + ReplaceFirst(writeArea, UserIdPlaceholder, UserIdText(userId))
            + "/" + BucketKey(now, id)
  {
    var p, u := UserIdPlaceholder, UserIdText(userId);
    var tail := "/" + BucketKey(now, id);
    var w := writeArea + tail;
    ReplaceFirstInHead(writeArea, tail, p, u);
    ReplaceAfterTwoSegments(appId, dataSet, w, u);
    var h := appId + "/" + dataSet + "/";
    SegmentThenTail(h, writeArea, BucketKey(now, id));
    SegmentThenTail(h, ReplaceFirst(writeArea, p, u), BucketKey(now, id));
  }

  /** `h + (x + ("/" + t))` is `h + x + "/" + t`. */
  lemma SegmentThenTail(h: string, x: string, t: string)
    ensures h + (x + ("/" + t)) == h + x + "/" + t
  {
    Associates(h, x, "/" + t);
    Associates(h + x, "/", t);
  }

  /** An area and its trailing slash: the first placeholder, if any, is the area's own. */
  lemma ReplaceInArea(area: string, u: string)
    requires '$' !in u
    ensures ReplaceFirst(area + "/", UserIdPlaceholder, u) == ReplaceFirst(area, UserIdPlaceholder, u) + "/"
  {
    var p := UserIdPlaceholder;
    if Contains(area, p) {
      ReplaceFirstInHead(area, "/", p, u);
    } else {
      FindPastClean(area, '/', "", p);
      assert area + "/" == area + ['/'] + "";
    }
  }

  /** A read prefix is `appId/dataSet/<area with its first placeholder filled in>/`. */
  lemma ReadPrefixLayout(appId: string, dataSet: string, area: string, userId: Option<string>)
    requires !Contains(appId, UserIdPlaceholder) && !Contains(dataSet, UserIdPlaceholder)
    requires '$' !in UserIdText(userId)
    ensures ReadPrefix(appId, dataSet, area, userId)
         == appId + "/" + dataSet + "/" + ReplaceFirst(area, UserIdPlaceholder, UserIdText(userId)) + "/"
  {
    var p, u := UserIdPlaceholder, UserIdText(userId);
    ReplaceInArea(area, u);
    ReplaceAfterTwoSegments(appId, dataSet, area + "/", u);
    assert appId + "/" + dataSet + "/" + area + "/" == appId + "/" + dataSet + "/" + (area + "/");
    assert appId + "/" + dataSet + "/" + (ReplaceFirst(area, p, u) + "/")
        == appId + "/" + dataSet + "/" + ReplaceFirst(area, p, u) + "/";
  }

  /** A bucket key without the placeholder: only the id could have held one, the timestamp never does. */
  lemma BucketKeyWithoutPlaceholder(now: nat, id: string)
    requires !Contains(id, UserIdPlaceholder)
    ensures !Contains(BucketKey(now, id), UserIdPlaceholder)
  {
    DigitsHaveNoPlaceholder(Decimal(now));
    FindPastClean(Decimal(now), '-', id, UserIdPlaceholder);
    assert BucketKey(now, id) == Decimal(now) + ['-'] + id;
  }

  /** Filling in an area followed by a placeholder-free rest fills in the area alone. */
  lemma ReplaceInAreaBeforeRest(area: string, rest: string, u: string)
    requires !Contains(rest, UserIdPlaceholder) && '$' !in u
    ensures ReplaceFirst(area + "/" + rest, UserIdPlaceholder, u) == ReplaceFirst(area, UserIdPlaceholder, u) + "/" + rest
  {
    var p := UserIdPlaceholder;
    if Contains(area, p) {
      ReplaceFirstInHead(area, "/" + rest, p, u);
      assert area + "/" + rest == area + ("/" + rest);
    } else {
      FindPastClean(area, '/', rest, p);
      assert area + "/" + rest == area + ['/'] + rest;
    }
  }

  /**
   * An update is written directly under the prefix that reading the write
   * area lists: the write key is that prefix followed by `<timestamp>-<id>`.
   */
  lemma WriteKeyExtendsWritePrefix(appId: string, dataSet: string, writeArea: string, now: nat, id: string,
                                   userId: Option<string>)
    requires !Contains(appId, UserIdPlaceholder) && !Contains(dataSet, UserIdPlaceholder)
    requires !Contains(id, UserIdPlaceholder) && '$' !in UserIdText(userId)
    ensures WriteKey(appId, dataSet, writeArea, now, id, userId)
         == ReadPrefix(appId, dataSet, writeArea, userId) + BucketKey(now, id)
  {
    var h := appId + "/" + dataSet + "/";
    var rw := ReplaceFirst(writeArea, UserIdPlaceholder, UserIdText(userId));
    var b := BucketKey(now, id);
    WriteKeyFillsAreaOnly(appId, dataSet, writeArea, now, id, userId);
    ReadPrefixLayout(appId, dataSet, writeArea, userId);
    Associates(h, rw, "/");
    Associates(h + rw, "/", b);
    Associates(h, rw + "/", b);
  }

  lemma WriteKeyFillsAreaOnly(appId: string, dataSet: string, writeArea: string, now: nat, id: string,
                              userId: Option<string>)
    requires !Contains(appId, UserIdPlaceholder) && !Contains(dataSet, UserIdPlaceholder)
    requires !Contains(id, UserIdPlaceholder) && '$' !in UserIdText(userId)
    ensures WriteKey(appId, dataSet, writeArea, now, id, userId)
         == appId + "/" + dataSet + "/"
            + (ReplaceFirst(writeArea, UserIdPlaceholder, UserIdText(userId)) + "/" + BucketKey(now, id))
  {
    var u := UserIdText(userId);
    var b := BucketKey(now, id);
    var rest := writeArea + "/" + b;
    BucketKeyWithoutPlaceholder(now, id);
    ReplaceInAreaBeforeRest(writeArea, b, u);
    ReplaceAfterTwoSegments(appId, dataSet, rest, u);
    assert WriteKeyTemplate(appId, dataSet, writeArea, now, id) == appId + "/" + dataSet + "/" + rest;
  }

  lemma ReplacedTextsDiffer(x: string, y: string, u1: string, u2: string)
    requires u1 != u2
    ensures x + u1 + y != x + u2 + y
  {
    if |u1| == |u2| {
      assert (x + u1 + y)[|x|..|x| + |u1|] == u1;
      assert (x + u2 + y)[|x|..|x| + |u2|] == u2;
    } else {
      assert |x + u1 + y| != |x + u2 + y|;
    }
  }

  /** Switching users changes the prefix read for an area that names the user. */
  lemma ReadPrefixDependsOnUser(appId: string, dataSet: string, area: string, u1: string, u2: string)
    requires Contains(area, UserIdPlaceholder) && u1 != u2 && '$' !in u1 && '$' !in u2
    ensures ReadPrefix(appId, dataSet, area, Some(u1)) != ReadPrefix(appId, dataSet, area, Some(u2))
  {
    var p := UserIdPlaceholder;
    var h := appId + "/" + dataSet + "/";
    var t := h + (area + "/");
    assert t == appId + "/" + dataSet + "/" + area + "/";
    var j := Find(area, p).value;
    OccursAtShift(h, area + "/", p, j);
    assert (area + "/")[j..j + |p|] == area[j..j + |p|];
    assert OccursAt(t, p, |h| + j);
    assert Contains(t, p);
    var i := Find(t, p).value;
    ReplaceFirstLiteralAt(t, p, u1, i);
    ReplaceFirstLiteralAt(t, p, u2, i);
    ReplacedTextsDiffer(t[..i], t[i + |p|..], u1, u2);
  }

  /**
   * A user id is a replacement text, so its `$` patterns are expanded: the
   * users `$` and `$$` both read the prefix `app/data/$/` of an area that is
   * just the placeholder.
   */
  lemma DollarUserIdsCollide()
    ensures ReadPrefix("app", "data", UserIdPlaceholder, Some("$")) == "app/data/$/"
    ensures ReadPrefix("app", "data", UserIdPlaceholder, Some("$$")) == "app/data/$/"
  {
    var p := UserIdPlaceholder;
    PlaceholderAreaPrefix(Some("$"));
    PlaceholderAreaPrefix(Some("$$"));
    assert Substitution("$", p, "app/data/", "/") == "$";
    assert Substitution("$$", p, "app/data/", "/") == "$" + Substitution([], p, "app/data/", "/");
  }

  /** For the area that is just the placeholder, the prefix is `app/data/` and the expanded user text. */
  lemma PlaceholderAreaPrefix(userId: Option<string>)
    ensures ReadPrefix("app", "data", UserIdPlaceholder, userId)
         == "app/data/" + Substitution(UserIdText(userId), UserIdPlaceholder, "app/data/", "/") + "/"
  {
    var p := UserIdPlaceholder;
    var t := "app/data/" + p + "/";
    assert t == "app" + "/" + "data" + "/" + p + "/";
    assert t[9..18] == p;
    forall j: nat | j < 9 ensures !OccursAt(t, p, j) {
      assert t[j..j + |p|][0] == t[j];
    }
    assert FirstAt(t, p, 9);
    assert t[..9] == "app/data/" && t[18..] == "/";
    ReplaceFirstAt(t, p, UserIdText(userId), 9);
  }

  /** A text without `$` holds no placeholder. */
  lemma NoDollarNoPlaceholder(s: string)
    requires '$' !in s
    ensures !Contains(s, UserIdPlaceholder)
  {
    forall i: nat | i <= |s| ensures !OccursAt(s, UserIdPlaceholder, i) {
      if i + 9 <= |s| {
        assert s[i..i + 9][0] == s[i];
      }
    }
  }

  /**
   * The placeholder is filled wherever it first occurs in the whole key, the
   * update id included: an update with id `$USER_ID$`, written at 5 ms into
   * write area `w`, goes under `app/data/w/5-` followed by the user text.
   */
  lemma PlaceholderIdKey(u: string)
    requires '$' !in u
    ensures WriteKey("app", "data", "w", 5, UserIdPlaceholder, Some(u)) == "app/data/w/5-" + u
  {
    var p := UserIdPlaceholder;
    var t := WriteKeyTemplate("app", "data", "w", 5, p);
    assert Decimal(5) == "5";
    assert t == "app/data/w/5-" + p;
    assert t[13..22] == p;
    forall j: nat | j < 13 ensures !OccursAt(t, p, j) {
      assert t[j..j + |p|][0] == t[j];
    }
    assert FirstAt(t, p, 13);
    assert t[..13] == "app/data/w/5-" && t[22..] == [];
    ReplaceFirstLiteralAt(t, p, u, 13);
  }

  /**
   * An update id holding the placeholder is filled in by the user id: the
   * update `$USER_ID$` of user `u` shares its key with the update `u` written
   * in the same millisecond, so the later write overwrites the earlier one.
   */
  lemma IdPlaceholderCollides()
    ensures WriteKey("app", "data", "w", 5, UserIdPlaceholder, Some("u")) == "app/data/w/5-u"
    ensures WriteKey("app", "data", "w", 5, UserIdPlaceholder, Some("u"))
         == WriteKey("app", "data", "w", 5, "u", Some("u"))
  {
    PlaceholderIdKey("u");
    PlainIdKey();
  }

  /** Without a placeholder anywhere, the update `u` goes under `app/data/w/5-u`. */
  lemma PlainIdKey()
    ensures WriteKey("app", "data", "w", 5, "u", Some("u")) == "app/data/w/5-u"
  {
    var t := WriteKeyTemplate("app", "data", "w", 5, "u");
    assert Decimal(5) == "5";
    assert t == "app/data/w/5-u";
    NoDollarNoPlaceholder(t);
  }

  /** So a key whose id held the placeholder is not the write prefix followed by the bucket key. */
  lemma IdPlaceholderLeavesLayout()
    ensures WriteKey("app", "data", "w", 5, UserIdPlaceholder, Some("u"))
         != ReadPrefix("app", "data", "w", Some("u")) + BucketKey(5, UserIdPlaceholder)
  {
    PlaceholderIdKey("u");
    var b := BucketKey(5, UserIdPlaceholder);
    LastOfBucketKey(5, UserIdPlaceholder);
    LastOfAppend(ReadPrefix("app", "data", "w", Some("u")), b);
  }

  /** The last character of `<timestamp>-<id>` is the id's last one. */
  lemma LastOfBucketKey(now: nat, id: string)
    requires id != []
    ensures BucketKey(now, id)[|BucketKey(now, id)| - 1] == id[|id| - 1]
  {
  }

  lemma LastOfAppend(x: string, b: string)
    requires b != []
    ensures (x + b)[|x + b| - 1] == b[|b| - 1]
  {
  }
}
