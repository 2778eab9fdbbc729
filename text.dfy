/**
 * Character classes and the Python string operations the pipeline uses:
 * `str.replace`, `str.split` and `str.join`.
 */
module Text {

  /** ASCII approximation of the regular-expression class `\w`. */
  predicate IsWordChar(c: char) {
    ('a' <= c <= 'z') || ('A' <= c <= 'Z') || ('0' <= c <= '9') || c == '_'
  }

  /**
   * The ASCII characters of the regular-expression class `\s` on `str`:
   * space, tab, newline, carriage return, vertical tab, form feed and the
   * four separators U+001C to U+001F.
   */
  predicate IsSpace(c: char) {
    || c == ' ' || c == '\t' || c == '\n' || c == '\r' || c == '\U{000B}' || c == '\U{000C}'
    || ('\U{001C}' <= c <= '\U{001F}')
  }

  /** True when `p` occurs in `s` starting at index `i`. */
  predicate OccursAt(s: string, p: string, i: nat) {
    i + |p| <= |s| && s[i..i + |p|] == p
  }

  /** True when `p` occurs nowhere in `s`. */
  predicate Absent(s: string, p: string) {
    forall i: nat | i <= |s| :: !OccursAt(s, p, i)
  }

  /**
   * The first index at or after `j` whose character satisfies `stop`,
   * or `|s|` when there is none.
   */
  function NextIndex(s: string, j: nat, stop: char -> bool): (r: nat)
    requires j <= |s|
    ensures j <= r <= |s|
    ensures forall k :: j <= k < r ==> !stop(s[k])
    ensures r < |s| ==> stop(s[r])
    decreases |s| - j
  {
    if j == |s| || stop(s[j]) then j else NextIndex(s, j + 1, stop)
  }

  /**
   * Python's `s.replace(p, r)`: every leftmost, non-overlapping occurrence
   * of `p` is replaced by `r`; an empty `p` inserts `r` around every character.
   */
  function ReplaceAll(s: string, p: string, r: string): string
    decreases |s|
  {
    if p == [] then
      (if s == [] then r else r + [s[0]] + ReplaceAll(s[1..], p, r))
    else if |s| < |p| then s
    else if s[..|p|] == p then r + ReplaceAll(s[|p|..], p, r)
    else [s[0]] + ReplaceAll(s[1..], p, r)
  }

  /** Python's `s.split(sep)`; Python refuses an empty separator. */
  function Split(s: string, sep: string): (parts: seq<string>)
    requires sep != []
    ensures |parts| >= 1
    decreases |s|
  {
    if |s| < |sep| then [s]
    else if s[..|sep|] == sep then [[]] + Split(s[|sep|..], sep)
    else
      var rest := Split(s[1..], sep);
      [[s[0]] + rest[0]] + rest[1..]
  }

  /** Python's `sep.join(parts)`. */
  function Join(parts: seq<string>, sep: string): string
  {
    if parts == [] then []
    else if |parts| == 1 then parts[0]
    else parts[0] + sep + Join(parts[1..], sep)
  }

  /** Replacing a pattern by itself changes nothing. */
  lemma {:induction false} ReplaceAllIdentity(s: string, p: string)
    ensures ReplaceAll(s, p, p) == s
    decreases |s|
  {
    if p == [] {
      if s != [] {
        ReplaceAllIdentity(s[1..], p);
        assert s == [s[0]] + s[1..];
      }
    } else if |s| < |p| {
    } else if s[..|p|] == p {
      ReplaceAllIdentity(s[|p|..], p);
      assert s == s[..|p|] + s[|p|..];
    } else {
      ReplaceAllIdentity(s[1..], p);
      assert s == [s[0]] + s[1..];
    }
  }

  /** A pattern that does not occur is not replaced. */
  lemma {:induction false} ReplaceAllAbsent(s: string, p: string, r: string)
    requires p != [] && Absent(s, p)
    ensures ReplaceAll(s, p, r) == s
    decreases |s|
  {
    if |s| >= |p| {
      assert !OccursAt(s, p, 0);
      forall i: nat | i <= |s[1..]|
        ensures !OccursAt(s[1..], p, i)
      {
        assert !OccursAt(s, p, i + 1);
        if i + |p| <= |s[1..]| {
          assert s[1..][i..i + |p|] == s[i + 1..i + 1 + |p|];
        }
      }
      ReplaceAllAbsent(s[1..], p, r);
      assert s == [s[0]] + s[1..];
    }
  }

  lemma JoinCons(a: string, parts: seq<string>, sep: string)
    requires |parts| >= 1
    ensures Join([a + parts[0]] + parts[1..], sep) == a + Join(parts, sep)
  {
    var q := [a + parts[0]] + parts[1..];
    assert q[1..] == parts[1..];
  }

  /** `s.replace(p, r)` is `r.join(s.split(p))`. */
  lemma {:induction false} ReplaceAllIsJoinOfSplit(s: string, p: string, r: string)
    requires p != []
    ensures ReplaceAll(s, p, r) == Join(Split(s, p), r)
    decreases |s|
  {
    if |s| < |p| {
    } else if s[..|p|] == p {
      ReplaceAllIsJoinOfSplit(s[|p|..], p, r);
      var rest := Split(s[|p|..], p);
      var parts := [[]] + rest;
      assert parts[1..] == rest;
      assert Join(parts, r) == [] + r + Join(rest, r);
    } else {
      ReplaceAllIsJoinOfSplit(s[1..], p, r);
      var rest := Split(s[1..], p);
      JoinCons([s[0]], rest, r);
    }
  }

  /** Splitting on a separator and joining with it again gives the original string back. */
  lemma SplitJoinRoundTrip(s: string, sep: string)
    requires sep != []
    ensures Join(Split(s, sep), sep) == s
  {
    ReplaceAllIsJoinOfSplit(s, sep, sep);
    ReplaceAllIdentity(s, sep);
  }
}
