/**
 * The POSIX path manipulation the device locator performs: `str.split("/")`,
 * `"/".join(...)`, `os.path.basename` and `os.path.join`.
 */
module Paths {

  /** Python's `s.rfind(c)`: the index of the last `c` in `s`, or -1. */
  function RFind(s: string, c: char): (r: int)
    ensures -1 <= r < |s|
    ensures r >= 0 ==> s[r] == c
    ensures forall k :: r < k < |s| ==> s[k] != c
  {
    if s == [] then -1
    else if s[|s| - 1] == c then |s| - 1
    else RFind(s[..|s| - 1], c)
  }

  /** Python's `s.split("/")`: the pieces between slashes, at least one. */
  function Split(s: string): (parts: seq<string>)
    ensures |parts| >= 1
    ensures forall k :: 0 <= k < |parts| ==> '/' !in parts[k]
    decreases |s|
  {
    var i := RFind(s, '/');
    if i < 0 then [s] else Split(s[..i]) + [s[i + 1..]]
  }

  /** Python's `"/".join(parts)`. */
  function Join(parts: seq<string>): string
  {
    if |parts| == 0 then ""
    else if |parts| == 1 then parts[0]
    else Join(parts[..|parts| - 1]) + "/" + parts[|parts| - 1]
  }

  /** Splitting on `/` and joining with `/` gives back the original string. */
  lemma {:induction false} JoinSplit(s: string)
    ensures Join(Split(s)) == s
    decreases |s|
  {
    var i := RFind(s, '/');
    if i >= 0 {
      var parts := Split(s);
      assert parts[..|parts| - 1] == Split(s[..i]);
      JoinSplit(s[..i]);
      assert s == s[..i] + "/" + s[i + 1..];
    }
  }

  /**
   * `"/".join(p.split("/")[0:-1])`: the path with its last `/`-separated
   * component and that slash removed; the empty string when `p` has no `/`.
   */
  function DirName(p: string): (d: string)
    ensures var i := RFind(p, '/'); d == if i < 0 then "" else p[..i]
  {
    var parts := Split(p);
    JoinSplit(p);
    Join(parts[..|parts| - 1])
  }

  /** `os.path.basename(p)`: everything after the last `/`. */
  function Basename(p: string): (b: string)
    ensures '/' !in b
    ensures '/' !in p ==> b == p
    ensures '/' in p ==> p == DirName(p) + "/" + b
  {
    var i := RFind(p, '/');
    assert i >= 0 ==> p == p[..i] + "/" + p[i + 1..];
    p[i + 1..]
  }

  /**
   * `os.path.join(a, b)` for POSIX paths: an absolute `b` replaces `a`;
   * otherwise a `/` is inserted unless `a` is empty or already ends in one.
   */
  function PathJoin(a: string, b: string): string
  {
    if |b| > 0 && b[0] == '/' then b
    else if a == [] || a[|a| - 1] == '/' then a + b
    else a + "/" + b
  }

  /**
   * Joining a file name onto a directory and then taking the directory and
   * base name back apart returns the two pieces.
   */
  lemma {:induction false} PathJoinParts(a: string, b: string)
    requires a != [] && a[|a| - 1] != '/'
    requires '/' !in b
    ensures DirName(PathJoin(a, b)) == a
    ensures Basename(PathJoin(a, b)) == b
  {
    var p := PathJoin(a, b);
    assert p == a + "/" + b;
    assert p[|a|] == '/';
    assert forall k :: |a| < k < |p| ==> p[k] == b[k - |a| - 1];
    RFindLast(p, |a|, '/');
    assert p[..|a|] == a;
  }

  lemma {:induction false} RFindLast(s: string, i: nat, c: char)
    requires i < |s| && s[i] == c
    requires forall k :: i < k < |s| ==> s[k] != c
    ensures RFind(s, c) == i
  {
    if i < |s| - 1 {
      RFindLast(s[..|s| - 1], i, c);
    }
  }
}
