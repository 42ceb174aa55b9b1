/**
 * Character classes and the two built-in string operations the title
 * cleaner relies on: `str.strip()` and `str.replace(junk, "")`.
 */
module Text {

  /** The code points for which Python's `str.isspace()` holds, one by one. */
  const SpaceCodePoints: set<int> := {
    0x09, 0x0A, 0x0B, 0x0C, 0x0D, 0x1C, 0x1D, 0x1E, 0x1F, 0x20, 0x85, 0xA0, 0x1680,
    0x2000, 0x2001, 0x2002, 0x2003, 0x2004, 0x2005, 0x2006, 0x2007, 0x2008, 0x2009, 0x200A,
    0x2028, 0x2029, 0x202F, 0x205F, 0x3000
  }

  /** Python's `str.isspace()`, which is also what the regex class `\s` matches in a str pattern. */
  predicate IsSpace(c: char)
    ensures IsSpace(c) <==> c as int in SpaceCodePoints
  {
    ('\t' <= c <= '\r') || ('\U{1C}' <= c <= ' ') || c == '\U{85}' || c == '\U{A0}' ||
    c == '\U{1680}' || ('\U{2000}' <= c <= '\U{200A}') || c == '\U{2028}' || c == '\U{2029}' ||
    c == '\U{202F}' || c == '\U{205F}' || c == '\U{3000}'
  }

  /** ASCII case folding, standing for the `(?i)` flag of the patterns. */
  function Lower(c: char): (r: char)
    ensures 'A' <= c <= 'Z' ==> 'a' <= r <= 'z' && r as int - c as int == 32
    ensures !('A' <= c <= 'Z') ==> r == c
  {
    if 'A' <= c <= 'Z' then (c as int + 32) as char else c
  }

  /** Two characters are equal under `(?i)`. */
  predicate SameLetter(a: char, b: char) {
    Lower(a) == Lower(b)
  }

  /** Nothing is left to trim at either end. */
  predicate Stripped(s: string) {
    s == [] || (!IsSpace(s[0]) && !IsSpace(s[|s| - 1]))
  }

  /** No line break: the regex `.` matches every character of s. */
  predicate NoNewline(s: string) {
    forall i :: 0 <= i < |s| ==> s[i] != '\n'
  }

  /** `str.lstrip()`: the suffix of s left after its leading whitespace. */
  function LStrip(s: string): (r: string)
    ensures |r| <= |s| && r == s[|s| - |r|..]
    ensures forall i :: 0 <= i < |s| - |r| ==> IsSpace(s[i])
    ensures r == [] || !IsSpace(r[0])
  {
    if s != [] && IsSpace(s[0]) then LStrip(s[1..]) else s
  }

  /** `str.rstrip()`: the prefix of s left before its trailing whitespace. */
  function RStrip(s: string): (r: string)
    ensures |r| <= |s| && r == s[..|r|]
    ensures forall i :: |r| <= i < |s| ==> IsSpace(s[i])
    ensures r == [] || !IsSpace(r[|r| - 1])
  {
    if s != [] && IsSpace(s[|s| - 1]) then RStrip(s[..|s| - 1]) else s
  }

  /** r is s[a..a + |r|] and everything of s around it is whitespace. */
  ghost predicate TrimmedAt(s: string, a: nat, r: string) {
    a + |r| <= |s| && r == s[a..a + |r|] &&
    (forall i :: 0 <= i < a ==> IsSpace(s[i])) &&
    (forall i :: a + |r| <= i < |s| ==> IsSpace(s[i]))
  }

  /** `str.strip()`. */
  function Strip(s: string): (r: string)
    ensures Stripped(r) && |r| <= |s|
    ensures exists a: nat :: TrimmedAt(s, a, r)
  {
    var l := LStrip(s);
    var r := RStrip(l);
    StripParts(s, l, r);
    r
  }

  lemma {:induction false} StripParts(s: string, l: string, r: string)
    requires l == LStrip(s) && r == RStrip(l)
    ensures Stripped(r) && TrimmedAt(s, |s| - |l|, r)
  {
    assert r != [] ==> r[0] == l[0];
  }

  /** A string that has nothing to trim is its own strip. */
  lemma {:induction false} StripOfStripped(s: string)
    requires Stripped(s)
    ensures Strip(s) == s
  {
    assert LStrip(s) == s;
    assert RStrip(s) == s;
  }

  /** Stripping never creates a line break. */
  lemma StripKeepsNoNewline(s: string)
    requires NoNewline(s)
    ensures NoNewline(Strip(s))
  {
    var r := Strip(s);
    var a: nat :| TrimmedAt(s, a, r);
    assert forall i :: 0 <= i < |r| ==> r[i] == s[a + i];
  }

  /** j occurs in s at position i. */
  predicate OccursAt(j: string, s: string, i: nat) {
    i + |j| <= |s| && s[i..i + |j|] == j
  }

  /** j occurs somewhere in s. */
  ghost predicate Occurs(j: string, s: string) {
    exists i: nat :: OccursAt(j, s, i)
  }

  /**
   * `s.replace(junk, "")`: scanning left to right, every non-overlapping
   * occurrence of junk is deleted; an empty junk leaves s as it is.
   */
  function DeleteAll(s: string, junk: string): (r: string)
    ensures |r| <= |s|
    decreases |s|
  {
    if junk == [] || |s| < |junk| then s
    else if s[..|junk|] == junk then DeleteAll(s[|junk|..], junk)
    else [s[0]] + DeleteAll(s[1..], junk)
  }

  /**
   * The deletion resumes right after the leftmost occurrence: when no
   * occurrence starts inside u, deleting from u + junk + v keeps u and
   * deletes from v, so later copies of junk go too.
   */
  lemma {:induction false} DeleteAllSplit(u: string, junk: string, v: string)
    requires junk != []
    requires forall i: nat :: i < |u| ==> !OccursAt(junk, u + junk + v, i)
    ensures DeleteAll(u + junk + v, junk) == u + DeleteAll(v, junk)
    decreases |u|
  {
    var s := u + junk + v;
    if u == [] {
      assert s == junk + v;
      assert s[..|junk|] == junk;
      assert s[|junk|..] == v;
    } else {
      assert !OccursAt(junk, s, 0);
      assert s[..|junk|] != junk;
      var t := u[1..] + junk + v;
      assert t == s[1..];
      forall i: nat | i < |u| - 1
        ensures !OccursAt(junk, t, i)
      {
        assert !OccursAt(junk, s, i + 1);
        assert t[i..i + |junk|] == s[i + 1..i + 1 + |junk|];
      }
      DeleteAllSplit(u[1..], junk, v);
      assert DeleteAll(s, junk) == [s[0]] + DeleteAll(t, junk);
      assert [u[0]] + u[1..] == u;
    }
  }

  /**
   * When the text s[a..b] does not occur before a, deleting it from s keeps
   * s[..a] and deletes it from what follows b.
   */
  lemma DeleteAllFromLeftmost(s: string, a: nat, b: nat)
    requires a <= b <= |s|
    requires forall i: nat :: i < a ==> !OccursAt(s[a..b], s, i)
    ensures DeleteAll(s, s[a..b]) == s[..a] + DeleteAll(s[b..], s[a..b])
  {
    var u, junk, v := s[..a], s[a..b], s[b..];
    assert u + junk + v == s;
    if junk == [] {
      assert u + v == s;
    } else {
      DeleteAllSplit(u, junk, v);
    }
  }

  /** Deleting a non-empty junk that occurs makes the string strictly shorter. */
  lemma {:induction false} DeleteAllShrinks(s: string, junk: string, i: nat)
    requires junk != [] && OccursAt(junk, s, i)
    ensures |DeleteAll(s, junk)| < |s|
    decreases |s|
  {
    if s[..|junk|] != junk {
      assert i > 0;
      assert s[1..][i - 1..i - 1 + |junk|] == s[i..i + |junk|];
      DeleteAllShrinks(s[1..], junk, i - 1);
    }
  }

  /** A string with no occurrence of junk is left as it is. */
  lemma {:induction false} DeleteAllAbsent(s: string, junk: string)
    requires !Occurs(junk, s)
    ensures DeleteAll(s, junk) == s
    decreases |s|
  {
    if junk != [] && |s| >= |junk| {
      assert !OccursAt(junk, s, 0);
      forall i: nat ensures !OccursAt(junk, s[1..], i) {
        if OccursAt(junk, s[1..], i) {
          assert s[i + 1..i + 1 + |junk|] == s[1..][i..i + |junk|];
          assert OccursAt(junk, s, i + 1);
        }
      }
      DeleteAllAbsent(s[1..], junk);
      assert [s[0]] + s[1..] == s;
    }
  }

  /** `s.replace(junk, "")` changes s exactly when junk is non-empty and occurs in s. */
  lemma DeleteAllUnchanged(s: string, junk: string)
    ensures DeleteAll(s, junk) == s <==> (junk == [] || !Occurs(junk, s))
  {
    if junk != [] && Occurs(junk, s) {
      var i: nat :| OccursAt(junk, s, i);
      DeleteAllShrinks(s, junk, i);
    } else if junk != [] {
      DeleteAllAbsent(s, junk);
    }
  }
}
