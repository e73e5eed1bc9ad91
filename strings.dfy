/** The JavaScript string operations the scripts rely on: `trim`, the regular
    expression class `\s`, `toLowerCase`/`toUpperCase`, `includes`,
    `startsWith`/`endsWith`, `replace` of the first occurrence of a string and
    `replace` of every match of a literal pattern with the global flag. */
module Strings {

  /** The characters JavaScript's `trim` removes and its `\s` matches:
      WhiteSpace and LineTerminator of ECMA-262 (section 12.2 and 12.3). */
  predicate IsSpace(c: char) {
    c == ' ' || c == '\t' || c == '\n' || c == '\r' || c == '\U{000B}' || c == '\U{000C}'
    || c == '\U{00A0}' || c == '\U{1680}' || ('\U{2000}' <= c <= '\U{200A}')
    || c == '\U{2028}' || c == '\U{2029}' || c == '\U{202F}' || c == '\U{205F}'
    || c == '\U{3000}' || c == '\U{FEFF}'
  }

  predicate AllSpace(s: string) {
    forall i :: 0 <= i < |s| ==> IsSpace(s[i])
  }

  /** Neither end of `s` is white space. */
  predicate IsTrimmed(s: string) {
    s == [] || (!IsSpace(s[0]) && !IsSpace(s[|s| - 1]))
  }

  /** The first position at or after `i` that is not white space. */
  function SkipSpace(s: string, i: nat): (j: nat)
    requires i <= |s|
    ensures i <= j <= |s|
    ensures j < |s| ==> !IsSpace(s[j])
    decreases |s| - i
  {
    if i < |s| && IsSpace(s[i]) then SkipSpace(s, i + 1) else i
  }

  /** The start of the run of white space that ends just before `e`, not
      going back past `a`. */
  function SpaceBefore(s: string, a: nat, e: nat): (b: nat)
    requires a <= e <= |s|
    ensures a <= b <= e
    ensures b > a ==> !IsSpace(s[b - 1])
  {
    if e > a && IsSpace(s[e - 1]) then SpaceBefore(s, a, e - 1) else e
  }

  lemma {:induction false} SkipSpaceSkipsSpace(s: string, i: nat)
    requires i <= |s|
    ensures forall k :: i <= k < SkipSpace(s, i) ==> IsSpace(s[k])
    decreases |s| - i
  {
    if i < |s| && IsSpace(s[i]) { SkipSpaceSkipsSpace(s, i + 1); }
  }

  lemma {:induction false} SpaceBeforeIsSpace(s: string, a: nat, e: nat)
    requires a <= e <= |s|
    ensures forall k :: SpaceBefore(s, a, e) <= k < e ==> IsSpace(s[k])
  {
    if e > a && IsSpace(s[e - 1]) { SpaceBeforeIsSpace(s, a, e - 1); }
  }

  /** Where the trimmed string starts and ends inside `s`. */
  function TrimFrom(s: string): (a: nat)
    ensures a <= |s|
  {
    SkipSpace(s, 0)
  }

  function TrimTo(s: string): (e: nat)
    ensures TrimFrom(s) <= e <= |s|
  {
    SpaceBefore(s, TrimFrom(s), |s|)
  }

  /** `s.trim()`. */
  function Trim(s: string): (r: string)
    ensures IsTrimmed(r) && |r| <= |s|
  {
    s[TrimFrom(s)..TrimTo(s)]
  }

  /** Trim removes white space, and only white space, from both ends. */
  lemma TrimSpec(s: string)
    ensures Trim(s) == s[TrimFrom(s)..TrimTo(s)]
    ensures forall k :: 0 <= k < TrimFrom(s) || TrimTo(s) <= k < |s| ==> IsSpace(s[k])
    ensures Trim(s) != [] ==> !IsSpace(s[TrimFrom(s)]) && !IsSpace(s[TrimTo(s) - 1])
  {
    SkipSpaceSkipsSpace(s, 0);
    SpaceBeforeIsSpace(s, TrimFrom(s), |s|);
  }

  /** Position `k` of the trimmed string is position TrimFrom(s) + k of `s`. */
  lemma TrimAt(s: string, k: nat)
    requires k < |Trim(s)|
    ensures TrimFrom(s) + k < |s| && Trim(s)[k] == s[TrimFrom(s) + k]
  {
  }

  lemma TakeAt(s: string, e: nat, k: nat)
    requires k < e <= |s|
    ensures s[..e][k] == s[k]
  {
  }

  lemma DropAt(s: string, x: nat, k: nat)
    requires x + k < |s|
    ensures s[x..][k] == s[x + k]
  {
  }

  lemma TrimOfTrimmed(s: string)
    requires IsTrimmed(s)
    ensures Trim(s) == s
  {
    if s != [] {
      assert TrimFrom(s) == 0;
      assert SpaceBefore(s, 0, |s|) == |s|;
    }
  }

  /** Skipping from `i` stops at `n` when everything before `n` is space and `s[n]` is not. */
  lemma {:induction false} SkipSpaceRun(s: string, i: nat, n: nat)
    requires i <= n < |s| && !IsSpace(s[n])
    requires forall k :: i <= k < n ==> IsSpace(s[k])
    ensures SkipSpace(s, i) == n
    decreases n - i
  {
    if i < n { SkipSpaceRun(s, i + 1, n); }
  }

  lemma SkipAllSpace(s: string, i: nat)
    requires i <= |s| && forall k :: i <= k < |s| ==> IsSpace(s[k])
    ensures SkipSpace(s, i) == |s|
    decreases |s| - i
  {
    if i < |s| { SkipAllSpace(s, i + 1); }
  }

  /** Trimming an empty string, or one of white space alone, gives "". */
  lemma TrimEmpty(s: string)
    ensures Trim(s) == [] <==> AllSpace(s)
  {
    TrimSpec(s);
    if AllSpace(s) {
      SkipAllSpace(s, 0);
    }
  }

  predicate IsAsciiLetter(c: char) {
    'A' <= c <= 'Z' || 'a' <= c <= 'z'
  }

  function LowerChar(c: char): char {
    if 'A' <= c <= 'Z' then (c as int + 32) as char else c
  }

  function UpperChar(c: char): char {
    if 'a' <= c <= 'z' then (c as int - 32) as char else c
  }

  /** `s.toLowerCase()` on the ASCII range. */
  function Lower(s: string): (r: string)
    ensures |r| == |s|
  {
    seq(|s|, i requires 0 <= i < |s| => LowerChar(s[i]))
  }

  predicate StartsWith(s: string, p: string) {
    |p| <= |s| && s[..|p|] == p
  }

  predicate EndsWith(s: string, p: string) {
    |p| <= |s| && s[|s| - |p|..] == p
  }

  /** `p` occurs in `s` at offset `i`. */
  predicate OccursAt(s: string, p: string, i: nat) {
    i + |p| <= |s| && s[i..i + |p|] == p
  }

  /** `s.includes(p)`. */
  predicate Contains(s: string, p: string) {
    exists i | 0 <= i <= |s| :: OccursAt(s, p, i)
  }

  /** An occurrence inside a slice is an occurrence in the whole string. */
  lemma ContainsInSlice(s: string, a: nat, b: nat, p: string)
    requires a <= b <= |s| && Contains(s[a..b], p)
    ensures Contains(s, p)
  {
    var i :| 0 <= i <= b - a && OccursAt(s[a..b], p, i);
    forall k | 0 <= k < |p| ensures s[a + i + k] == p[k] {
      assert s[a..b][i..i + |p|][k] == p[k];
    }
    assert s[a + i..a + i + |p|] == p;
    assert OccursAt(s, p, a + i);
  }

  /** `s.replace(p, q)` with a string pattern: the first occurrence only. */
  function ReplaceFirst(s: string, p: string, q: string): (r: string)
    requires |p| > 0
    decreases |s|
  {
    if |s| < |p| then s
    else if s[..|p|] == p then q + s[|p|..]
    else [s[0]] + ReplaceFirst(s[1..], p, q)
  }

  /** `s.replace(/p/g, '')` for a literal pattern `p`: the leftmost
      non-overlapping occurrences, scanned left to right, are deleted. */
  function RemoveAll(s: string, p: string): (r: string)
    requires |p| > 0
    ensures |r| <= |s|
    decreases |s|
  {
    if |s| < |p| then s
    else if s[..|p|] == p then RemoveAll(s[|p|..], p)
    else [s[0]] + RemoveAll(s[1..], p)
  }

  const Fence: string := "```"

  /** Removing every "```" starts from the same character when the input does
      not start with a backquote. */
  lemma RemoveFenceKeepsHead(s: string)
    requires s != [] && s[0] != '`'
    ensures RemoveAll(s, Fence) != [] && RemoveAll(s, Fence)[0] == s[0]
  {
    if |s| >= 3 {
      assert s[..3] != Fence by { assert s[..3][0] == s[0]; }
    }
  }

  /** Deleting every "```" cannot glue two pieces into a new "```": the piece
      in front of a deleted fence never ends in a backquote, because scanning
      left to right would have found the fence one position earlier. */
  lemma {:induction false} RemoveFenceLeavesNone(s: string)
    ensures !Contains(RemoveAll(s, Fence), Fence)
    decreases |s|
  {
    var r := RemoveAll(s, Fence);
    if |s| < 3 {
      assert r == s;
    } else if s[..3] == Fence {
      RemoveFenceLeavesNone(s[3..]);
    } else {
      var t := RemoveAll(s[1..], Fence);
      RemoveFenceLeavesNone(s[1..]);
      assert r == [s[0]] + t;
      forall i | 0 <= i <= |r| ensures !OccursAt(r, Fence, i) {
        if i > 0 {
          if i + 3 <= |r| {
            assert r[i..i + 3] == t[i - 1..i + 2];
          }
          assert !OccursAt(t, Fence, i - 1);
        } else if |r| >= 3 {
          if s[0] != '`' {
            assert r[0] != '`';
          } else if s[1] != '`' {
            RemoveFenceKeepsHead(s[1..]);
            assert r[1] != '`';
          } else {
            assert s[2] != '`' by { assert s[..3][2] == s[2]; }
            var s1 := s[1..];
            if |s1| >= 3 {
              assert s1[..3] != Fence by { assert s1[..3][1] == s[2]; }
            }
            assert t == [s1[0]] + RemoveAll(s1[1..], Fence);
            RemoveFenceKeepsHead(s1[1..]);
            assert r[2] != '`';
          }
          assert r[..3] != Fence by { assert r[..3][0] == r[0] && r[..3][1] == r[1] && r[..3][2] == r[2]; }
        }
      }
    }
  }
}
