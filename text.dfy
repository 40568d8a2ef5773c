/**
 * String operations the S3 adapter relies on: prefix and suffix tests, the
 * first-match search and replacement performed by JavaScript's
 * `String.prototype.replace` with a non-global pattern, and the decimal
 * rendering of a non-negative integer (`Number` to `String`).
 */
module Text {
  import opened Outcomes

  predicate StartsWith(s: string, p: string)
  {
    |p| <= |s| && s[..|p|] == p
  }

  predicate EndsWith(s: string, p: string)
  {
    |p| <= |s| && s[|s| - |p|..] == p
  }

  /** `p` occurs in `s` starting at index `i`. */
  predicate OccursAt(s: string, p: string, i: nat)
  {
    i + |p| <= |s| && s[i..i + |p|] == p
  }

  predicate Contains(s: string, p: string)
  {
    exists i: nat | i <= |s| :: OccursAt(s, p, i)
  }

  /** `i` is the leftmost occurrence of `p` in `s`. */
  predicate FirstAt(s: string, p: string, i: nat)
  {
    OccursAt(s, p, i) && forall j: nat :: j < i ==> !OccursAt(s, p, j)
  }

  lemma FirstAtUnique(s: string, p: string, i: nat, j: nat)
    requires FirstAt(s, p, i) && FirstAt(s, p, j)
    ensures i == j
  {
  }

  /** Leftmost occurrence of `p` in `s` at or after index `i`. */
  function FindFrom(s: string, p: string, i: nat): (r: Option<nat>)
    requires i <= |s|
    ensures r.Some? ==> i <= r.value && OccursAt(s, p, r.value)
    ensures forall j: nat :: i <= j && (r.None? || j < r.value) ==> !OccursAt(s, p, j)
    decreases |s| - i
  {
    if OccursAt(s, p, i) then Some(i)
    else if i == |s| then None
    else FindFrom(s, p, i + 1)
  }

  /** Leftmost occurrence of `p` in `s`: what a regular expression without the `g` flag matches. */
  function Find(s: string, p: string): (r: Option<nat>)
    ensures r.Some? <==> Contains(s, p)
    ensures r.Some? ==> FirstAt(s, p, r.value)
  {
    FindFrom(s, p, 0)
  }

  /**
   * The text JavaScript inserts in place of a match when the replacement is a
   * string and the pattern has no capture groups: `$$` becomes `$`, `$&` the
   * matched text, `` $` `` the text before the match, `$'` the text after it;
   * every other character, a lone `$` included, is copied.
   */
  function Substitution(rep: string, matched: string, before: string, after: string): string
    decreases |rep|
  {
    if |rep| >= 2 && rep[0] == '$' then
      if rep[1] == '$' then "$" + Substitution(rep[2..], matched, before, after)
      else if rep[1] == '&' then matched + Substitution(rep[2..], matched, before, after)
      else if rep[1] == '`' then before + Substitution(rep[2..], matched, before, after)
      else if rep[1] == '\'' then after + Substitution(rep[2..], matched, before, after)
      else "$" + Substitution(rep[1..], matched, before, after)
    else if rep == [] then []
    else [rep[0]] + Substitution(rep[1..], matched, before, after)
  }

  lemma {:induction false} SubstitutionOfPlainText(rep: string, matched: string, before: string, after: string)
    requires '$' !in rep
    ensures Substitution(rep, matched, before, after) == rep
    decreases |rep|
  {
    if rep != [] {
      assert rep[0] != '$';
      assert '$' !in rep[1..] by {
        forall k | 0 <= k < |rep[1..]| ensures rep[1..][k] != '$' {
          assert rep[1..][k] == rep[k + 1];
        }
      }
      SubstitutionOfPlainText(rep[1..], matched, before, after);
      assert [rep[0]] + rep[1..] == rep;
    }
  }

  /** `s.replace(p, rep)` for a literal, non-global pattern `p`: only the leftmost occurrence is replaced. */
  function ReplaceFirst(s: string, p: string, rep: string): string
  {
    match Find(s, p)
    case None => s
    case Some(i) => s[..i] + Substitution(rep, p, s[..i], s[i + |p|..]) + s[i + |p|..]
  }

  /**
   * Only the leftmost occurrence is replaced, by the expanded replacement
   * text; everything before and after it, later occurrences included, is kept.
   */
  lemma ReplaceFirstAt(s: string, p: string, rep: string, i: nat)
    requires FirstAt(s, p, i)
    ensures ReplaceFirst(s, p, rep) == s[..i] + Substitution(rep, p, s[..i], s[i + |p|..]) + s[i + |p|..]
  {
    assert Contains(s, p);
    FirstAtUnique(s, p, i, Find(s, p).value);
  }

  /** A replacement text without `$` goes in literally in place of the leftmost occurrence. */
  lemma ReplaceFirstLiteralAt(s: string, p: string, rep: string, i: nat)
    requires FirstAt(s, p, i) && '$' !in rep
    ensures ReplaceFirst(s, p, rep) == s[..i] + rep + s[i + |p|..]
  {
    ReplaceFirstAt(s, p, rep, i);
    SubstitutionOfPlainText(rep, p, s[..i], s[i + |p|..]);
  }

  /** An occurrence starting inside `a` stays inside `a` when the separator `c` is not part of `p`. */
  lemma OccurrenceStaysBeforeSeparator(a: string, c: char, b: string, p: string, j: nat)
    requires c !in p && j <= |a|
    requires OccursAt(a + [c] + b, p, j)
    ensures OccursAt(a, p, j)
  {
    var s := a + [c] + b;
    assert s[|a|] == c;
    assert j + |p| <= |a|;
    assert s[j..j + |p|] == a[j..j + |p|];
  }

  lemma OccursAtShift(a: string, b: string, p: string, k: nat)
    ensures OccursAt(a + b, p, |a| + k) <==> OccursAt(b, p, k)
  {
    if k + |p| <= |b| {
      assert (a + b)[|a| + k..|a| + k + |p|] == b[k..k + |p|];
    }
  }

  /** No occurrence in `a + [c] + b` starts inside `a` when `a` has none and `c` is not part of `p`. */
  lemma NoOccurrenceBeforeSeparator(a: string, c: char, b: string, p: string)
    requires c !in p && !Contains(a, p)
    ensures forall j: nat | j <= |a| :: !OccursAt(a + [c] + b, p, j)
  {
    forall j: nat | j <= |a| ensures !OccursAt(a + [c] + b, p, j) {
      if OccursAt(a + [c] + b, p, j) {
        OccurrenceStaysBeforeSeparator(a, c, b, p, j);
      }
    }
  }

  /** Past a prefix `a` free of `p` and a separator not in `p`, the search continues in `b`. */
  lemma FindPastClean(a: string, c: char, b: string, p: string)
    requires c !in p && !Contains(a, p)
    ensures Find(b, p).None? ==> Find(a + [c] + b, p).None?
    ensures Find(b, p).Some? ==> Find(a + [c] + b, p) == Some(|a| + 1 + Find(b, p).value)
  {
    var s := a + [c] + b;
    var h := a + [c];
    assert s == h + b;
    NoOccurrenceBeforeSeparator(a, c, b, p);
    if Find(b, p).Some? {
      var k := Find(b, p).value;
      OccursAtShift(h, b, p, k);
      forall j: nat | j < |h| + k ensures !OccursAt(s, p, j) {
        if j >= |h| {
          OccursAtShift(h, b, p, j - |h|);
        }
      }
      assert FirstAt(s, p, |h| + k);
      FirstAtUnique(s, p, |h| + k, Find(s, p).value);
    } else {
      forall j: nat | j <= |s| ensures !OccursAt(s, p, j) {
        if j >= |h| {
          OccursAtShift(h, b, p, j - |h|);
        }
      }
    }
  }

  /** Replacing in `a + [c] + b`, where `a` has no occurrence and `c` cannot be part of one, replaces in `b`. */
  lemma ReplaceFirstPastClean(a: string, c: char, b: string, p: string, rep: string)
    requires c !in p && !Contains(a, p) && '$' !in rep
    ensures ReplaceFirst(a + [c] + b, p, rep) == a + [c] + ReplaceFirst(b, p, rep)
  {
    FindPastClean(a, c, b, p);
    if Find(b, p).Some? {
      ReplaceFirstShifted(a + [c], b, p, rep, Find(b, p).value);
    }
  }

  lemma ReplaceFirstShifted(h: string, b: string, p: string, rep: string, k: nat)
    requires FirstAt(h + b, p, |h| + k) && FirstAt(b, p, k) && '$' !in rep
    ensures ReplaceFirst(h + b, p, rep) == h + ReplaceFirst(b, p, rep)
  {
    var before, after := b[..k], b[k + |p|..];
    ReplaceFirstAtShifted(h, b, p, rep, k);
    ReplaceFirstLiteralAt(b, p, rep, k);
    Associates(h, before, rep);
    Associates(h, before + rep, after);
  }

  /** A leftmost occurrence inside `b` of `h + b`, replaced by a literal text, in `b`'s own terms. */
  lemma ReplaceFirstAtShifted(h: string, b: string, p: string, rep: string, k: nat)
    requires FirstAt(h + b, p, |h| + k) && '$' !in rep
    ensures k + |p| <= |b|
    ensures ReplaceFirst(h + b, p, rep) == (h + b[..k]) + rep + b[k + |p|..]
  {
    ReplaceFirstLiteralAt(h + b, p, rep, |h| + k);
    SlicesPastHead(h, b, k, |p|);
  }

  /** Cutting `h + b` inside `b`: the part before keeps `h`, the part after is `b`'s own. */
  lemma SlicesPastHead<T>(h: seq<T>, b: seq<T>, k: nat, n: nat)
    requires k + n <= |b|
    ensures (h + b)[..|h| + k] == h + b[..k]
    ensures (h + b)[|h| + k + n..] == b[k + n..]
  {
  }

  lemma Associates<T>(a: seq<T>, b: seq<T>, c: seq<T>)
    ensures a + (b + c) == (a + b) + c
  {
  }

  /** A leftmost occurrence in `a` stays the leftmost one once `b` is appended. */
  lemma FirstAtInHead(a: string, b: string, p: string, i: nat)
    requires FirstAt(a, p, i)
    ensures FirstAt(a + b, p, i)
  {
    assert (a + b)[i..i + |p|] == a[i..i + |p|];
    forall j: nat | j < i ensures !OccursAt(a + b, p, j) {
      assert j + |p| <= |a|;
      assert (a + b)[j..j + |p|] == a[j..j + |p|];
      assert !OccursAt(a, p, j);
    }
  }

  /** When the occurrence lies inside `a`, appending `b` after it changes nothing about the replacement. */
  lemma ReplaceFirstInHead(a: string, b: string, p: string, rep: string)
    requires Contains(a, p) && '$' !in rep
    ensures ReplaceFirst(a + b, p, rep) == ReplaceFirst(a, p, rep) + b
  {
    var i := Find(a, p).value;
    FirstAtInHead(a, b, p, i);
    ReplaceFirstLiteralAt(a + b, p, rep, i);
    ReplaceFirstLiteralAt(a, p, rep, i);
    var before, after := a[..i], a[i + |p|..];
    assert (a + b)[..i] == before;
    assert (a + b)[i + |p|..] == after + b;
    Associates(before + rep, after, b);
  }

  /** The leftmost occurrence ends before a last character that cannot be part of `p`. */
  lemma FirstEndsBeforeLast(s: string, p: string, i: nat, c: char)
    requires FirstAt(s, p, i) && EndsWith(s, [c]) && c !in p
    ensures i + |p| < |s|
  {
    if |p| == 0 {
      assert OccursAt(s, p, 0);
    } else {
      assert s[i..i + |p|][|p| - 1] == s[i + |p| - 1];
      assert p[|p| - 1] in p;
      assert s[|s| - 1] == c;
    }
  }

  lemma EndsWithAppended(x: string, y: string, c: char)
    requires EndsWith(y, [c])
    ensures EndsWith(x + y, [c])
  {
    assert (x + y)[|x + y| - 1] == y[|y| - 1];
  }

  /** A last character that cannot be part of `p` survives the replacement, whatever the replacement text. */
  lemma ReplaceFirstKeepsLast(s: string, p: string, rep: string, c: char)
    requires EndsWith(s, [c]) && c !in p
    ensures EndsWith(ReplaceFirst(s, p, rep), [c])
  {
    var f := Find(s, p);
    if f.Some? {
      var i := f.value;
      FirstEndsBeforeLast(s, p, i, c);
      var after := s[i + |p|..];
      assert after[|after| - 1] == s[|s| - 1];
      EndsWithAppended(s[..i] + Substitution(rep, p, s[..i], after), after, c);
    }
  }

  // Decimal rendering of timestamps.

  predicate IsDigits(s: string)
  {
    forall i :: 0 <= i < |s| ==> '0' <= s[i] <= '9'
  }

  function Digit(d: nat): (c: char)
    requires d < 10
  {
    (48 + d) as char
  }

  function DigitValue(c: char): nat
    requires '0' <= c <= '9'
  {
    (c as int) - 48
  }

  /**
   * `String(n)` for a non-negative integer: its digits, without leading
   * zeros. JavaScript prints integers from 10^21 on in exponent notation,
   * which this rendering does not follow.
   */
  function Decimal(n: nat): (r: string)
    ensures |r| > 0 && IsDigits(r)
    ensures n == 0 ==> r == "0"
    ensures n > 0 ==> r[0] != '0'
    decreases n
  {
    if n < 10 then [Digit(n)] else Decimal(n / 10) + [Digit(n % 10)]
  }

  /** The integer a string of decimal digits denotes. */
  function ParseDecimal(s: string): nat
    requires IsDigits(s)
    decreases |s|
  {
    if s == [] then 0 else 10 * ParseDecimal(s[..|s| - 1]) + DigitValue(s[|s| - 1])
  }

  lemma {:induction false} ParseDecimalOfDecimal(n: nat)
    ensures ParseDecimal(Decimal(n)) == n
    decreases n
  {
    if n >= 10 {
      var r := Decimal(n);
      assert r[..|r| - 1] == Decimal(n / 10);
      ParseDecimalOfDecimal(n / 10);
    }
  }
}
