/** The handful of Python string operations the services rely on:
    `str.lower`, the `in` substring test, `str.split(sep)`, `sep.join`
    and `str.strip`. */
module Text {
  import opened Wrappers

  predicate IsUpper(c: char) {
    'A' <= c <= 'Z'
  }

  /** `str.lower()` on one character; only ASCII letters are mapped. */
  function LowerChar(c: char): char {
    if IsUpper(c) then (c as int + 32) as char else c
  }

  /** `str.lower()`, letter by letter. */
  function Lower(s: string): (r: string)
    ensures |r| == |s|
    ensures forall i :: 0 <= i < |s| ==> r[i] == LowerChar(s[i])
    ensures forall i :: 0 <= i < |r| ==> !IsUpper(r[i])
  {
    if |s| == 0 then "" else [LowerChar(s[0])] + Lower(s[1..])
  }

  /** Lower-casing twice is lower-casing once. */
  lemma LowerIdempotent(s: string)
    ensures Lower(Lower(s)) == Lower(s)
  {
    var l := Lower(s);
    assert forall i :: 0 <= i < |l| ==> Lower(l)[i] == l[i];
  }

  /** `k` occurs in `s` starting at position `i`. */
  predicate OccursAt(k: string, s: string, i: int) {
    0 <= i && i + |k| <= |s| && s[i..i + |k|] == k
  }

  lemma OccursShift(k: string, s: string, j: int)
    requires |s| > 0 && j >= 0
    ensures OccursAt(k, s[1..], j) <==> OccursAt(k, s, j + 1)
  {
    if 0 <= j && j + |k| <= |s| - 1 {
      assert s[1..][j..j + |k|] == s[j + 1..j + 1 + |k|];
    }
  }

  lemma OccursInPrefix(k: string, s: string, n: nat, j: int)
    requires n <= |s|
    requires OccursAt(k, s[..n], j)
    ensures OccursAt(k, s, j)
  {
    assert s[..n][j..j + |k|] == s[j..j + |k|];
  }

  /** Python's `s.find(k)`: the leftmost position at which `k` occurs in `s`. */
  function IndexOf(s: string, k: string): (r: Option<nat>)
    ensures r.Some? ==> OccursAt(k, s, r.value)
    ensures r.Some? ==> forall j :: 0 <= j < r.value ==> !OccursAt(k, s, j)
    ensures r.None? ==> forall j :: !OccursAt(k, s, j)
    decreases |s|
  {
    if |k| <= |s| && s[..|k|] == k then
      assert OccursAt(k, s, 0);
      Some(0)
    else if |s| == 0 then
      None
    else
      var r := IndexOf(s[1..], k);
      assert forall j :: OccursAt(k, s[1..], j) ==> OccursAt(k, s, j + 1) by {
        forall j | OccursAt(k, s[1..], j) ensures OccursAt(k, s, j + 1) {
          OccursShift(k, s, j);
        }
      }
      assert !OccursAt(k, s, 0);
      assert forall j :: OccursAt(k, s, j) ==> OccursAt(k, s[1..], j - 1) by {
        forall j | OccursAt(k, s, j) ensures OccursAt(k, s[1..], j - 1) {
          OccursShift(k, s, j - 1);
        }
      }
      match r
      case Some(i) => Some(i + 1)
      case None => None
  }

  /** Python's `k in s`. */
  predicate Contains(s: string, k: string) {
    IndexOf(s, k).Some?
  }

  /** An occurrence anywhere makes `k in s` true. */
  lemma OccursContains(k: string, s: string, i: int)
    requires OccursAt(k, s, i)
    ensures Contains(s, k)
  {
  }

  /** A one-character pattern occurs exactly when its character does. */
  lemma ContainsChar(s: string, k: string)
    requires |k| == 1
    ensures Contains(s, k) <==> k[0] in s
  {
    if k[0] in s {
      var i :| 0 <= i < |s| && s[i] == k[0];
      assert s[i..i + 1] == k;
      OccursContains(k, s, i);
    }
    if Contains(s, k) {
      var i := IndexOf(s, k).value;
      assert s[i..i + 1][0] == s[i];
    }
  }

  /** `sep.join(parts)`. */
  function Join(sep: string, parts: seq<string>): string
    decreases |parts|
  {
    if |parts| == 0 then ""
    else if |parts| == 1 then parts[0]
    else parts[0] + sep + Join(sep, parts[1..])
  }

  /** `s.split(sep)` for a non-empty separator: cut at each leftmost,
      non-overlapping occurrence of `sep`. Python raises on an empty one. */
  function Split(s: string, sep: string): (r: seq<string>)
    requires |sep| > 0
    ensures |r| >= 1
    ensures Join(sep, r) == s
    ensures forall i :: 0 <= i < |r| ==> !Contains(r[i], sep)
    ensures |r| == 1 <==> !Contains(s, sep)
    ensures |r| > 1 ==> IndexOf(s, sep) == Some(|r[0]|)
    decreases |s|
  {
    match IndexOf(s, sep)
    case None => [s]
    case Some(i) =>
      var rest := Split(s[i + |sep|..], sep);
      var r := [s[..i]] + rest;
      CutAtFirst(s, sep, i);
      assert r[1..] == rest;
      assert forall m :: 1 <= m < |r| ==> r[m] == rest[m - 1];
      r
  }

  /** Cutting `s` at the leftmost occurrence `i` of `sep`: the text before
      it does not contain `sep`, and the three pieces make up `s`. */
  lemma CutAtFirst(s: string, sep: string, i: nat)
    requires |sep| > 0
    requires IndexOf(s, sep) == Some(i)
    ensures i + |sep| <= |s|
    ensures s == s[..i] + sep + s[i + |sep|..]
    ensures !Contains(s[..i], sep)
  {
    CutAt(s, sep, i);
    NothingBeforeFirst(s, sep, i);
  }

  lemma CutAt(s: string, sep: string, i: nat)
    requires OccursAt(sep, s, i)
    ensures s == s[..i] + sep + s[i + |sep|..]
  {
    assert s[..i] + s[i..i + |sep|] + s[i + |sep|..] == s;
  }

  lemma NothingBeforeFirst(s: string, sep: string, i: nat)
    requires |sep| > 0
    requires i <= |s|
    requires forall j :: 0 <= j < i ==> !OccursAt(sep, s, j)
    ensures !Contains(s[..i], sep)
  {
    var pre := IndexOf(s[..i], sep);
    if pre.Some? {
      OccursInPrefix(sep, s, i, pre.value);
      assert false;
    }
  }

  /** With a one-character separator that no part contains, splitting the
      joined text gives the parts back. */
  lemma {:induction false} SplitJoin(sep: string, parts: seq<string>)
    requires |sep| == 1
    requires |parts| >= 1
    requires forall i :: 0 <= i < |parts| ==> !Contains(parts[i], sep)
    ensures Split(Join(sep, parts), sep) == parts
    decreases |parts|
  {
    if |parts| > 1 {
      var p := parts[0];
      var tail := Join(sep, parts[1..]);
      var joined := Join(sep, parts);
      assert joined == p + sep + tail;
      assert OccursAt(sep, joined, |p|) by {
        assert joined[|p|..|p| + 1] == sep;
      }
      forall j | 0 <= j < |p|
        ensures !OccursAt(sep, joined, j)
      {
        if OccursAt(sep, joined, j) {
          assert joined[j..j + 1] == p[j..j + 1];
          assert OccursAt(sep, p, j);
          OccursContains(sep, p, j);
          assert false;
        }
      }
      assert IndexOf(joined, sep) == Some(|p|);
      assert joined[..|p|] == p;
      assert joined[|p| + 1..] == tail;
      SplitJoin(sep, parts[1..]);
      assert Split(joined, sep) == [p] + parts[1..];
    }
  }

  /** Whitespace as Python's `str.isspace()` defines it. */
  const Whitespace: set<char> := {
      '\U{0009}', '\U{000A}', '\U{000B}', '\U{000C}', '\U{000D}', '\U{001C}',
      '\U{001D}', '\U{001E}', '\U{001F}', '\U{0020}', '\U{0085}', '\U{00A0}',
      '\U{1680}', '\U{2000}', '\U{2001}', '\U{2002}', '\U{2003}', '\U{2004}',
      '\U{2005}', '\U{2006}', '\U{2007}', '\U{2008}', '\U{2009}', '\U{200A}',
      '\U{2028}', '\U{2029}', '\U{202F}', '\U{205F}', '\U{3000}'
    }

  predicate IsSpace(c: char) {
    c in Whitespace
  }

  /** The first position at or after `i` that does not hold whitespace. */
  function SkipSpaces(s: string, i: nat): (r: nat)
    requires i <= |s|
    ensures i <= r <= |s|
    ensures forall k :: i <= k < r ==> IsSpace(s[k])
    ensures r < |s| ==> !IsSpace(s[r])
    decreases |s| - i
  {
    if i < |s| && IsSpace(s[i]) then SkipSpaces(s, i + 1) else i
  }

  /** The end of `s[lo..j]` once trailing whitespace is dropped. */
  function BackOverSpaces(s: string, lo: nat, j: nat): (r: nat)
    requires lo <= j <= |s|
    ensures lo <= r <= j
    ensures forall k :: r <= k < j ==> IsSpace(s[k])
    ensures r > lo ==> !IsSpace(s[r - 1])
    decreases j - lo
  {
    if j > lo && IsSpace(s[j - 1]) then BackOverSpaces(s, lo, j - 1) else j
  }

  /** The number of whitespace characters `s.lstrip()` removes. */
  function LeadingSpaces(s: string): nat
    ensures LeadingSpaces(s) <= |s|
  {
    SkipSpaces(s, 0)
  }

  /** `s.strip()`: `s` is `r` surrounded by whitespace only, and `r` neither
      starts nor ends with whitespace. */
  function Strip(s: string): (r: string)
    ensures |r| == 0 || (!IsSpace(r[0]) && !IsSpace(r[|r| - 1]))
    ensures OccursAt(r, s, LeadingSpaces(s))
    ensures forall j :: 0 <= j < LeadingSpaces(s) ==> IsSpace(s[j])
    ensures forall j :: LeadingSpaces(s) + |r| <= j < |s| ==> IsSpace(s[j])
  {
    var a := LeadingSpaces(s);
    var b := BackOverSpaces(s, a, |s|);
    s[a..b]
  }
}
