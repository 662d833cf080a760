/**
 * POSIX path helpers as the sync tool uses them: `os.path.basename` and
 * `os.path.join`, over strings whose separator is '/'.
 */
module Paths {

  const Sep: char := '/'

  /** The string contains no path separator: a single path component. */
  predicate NoSep(s: string) {
    forall i :: 0 <= i < |s| ==> s[i] != Sep
  }

  /** A path that `os.path.join` treats as absolute: it starts with '/'. */
  predicate Absolute(p: string) {
    |p| > 0 && p[0] == Sep
  }

  /**
   * `os.path.basename`: everything after the last '/'. The contract pins the
   * result down completely: it is the longest separator-free suffix of `p`.
   */
  function Basename(p: string): (b: string)
    ensures LastComponent(p, b)
  {
    if p == [] || p[|p| - 1] == Sep then []
    else
      var init := p[..|p| - 1];
      assert p == init + [p[|p| - 1]];
      SuffixSnoc(init, p[|p| - 1], Basename(init));
      Basename(init) + [p[|p| - 1]]
  }

  /** `b` is the longest separator-free suffix of `p`. */
  predicate LastComponent(p: string, b: string) {
    && NoSep(b)
    && |b| <= |p| && p[|p| - |b|..] == b
    && (|b| < |p| ==> p[|p| - |b| - 1] == Sep)
  }

  /** Extending a path by a non-separator extends its last component by the same character. */
  lemma SuffixSnoc(init: string, last: char, b: string)
    requires last != Sep && LastComponent(init, b)
    ensures LastComponent(init + [last], b + [last])
  {
    var p := init + [last];
    var b' := b + [last];
    assert forall i :: 0 <= i < |b| ==> b'[i] == b[i];
    assert p[|p| - |b'|..] == init[|init| - |b|..] + [last];
    if |b'| < |p| {
      assert p[|p| - |b'| - 1] == init[|init| - |b| - 1];
    }
  }

  /** A separator-free path is its own basename. */
  lemma BasenameOfComponent(p: string)
    requires NoSep(p)
    ensures Basename(p) == p
  {
  }

  /** The basename of `dir/name` is `name`, whatever `dir` holds. */
  lemma BasenameAfterSep(dir: string, name: string)
    requires NoSep(name)
    ensures Basename(dir + [Sep] + name) == name
  {
    var p := dir + [Sep] + name;
    assert p[|p| - |name|..] == name;
    assert p[|p| - |name| - 1] == Sep;
    assert forall i :: |p| - |name| <= i < |p| ==> p[i] == name[i - (|p| - |name|)];
  }

  /**
   * `os.path.join(a, b)`: an absolute `b` replaces `a`; otherwise `b` is
   * appended to `a`, with a '/' in between unless `a` is empty or already
   * ends in one.
   */
  function Join(a: string, b: string): (r: string) {
    if Absolute(b) then b
    else if a == [] || a[|a| - 1] == Sep then a + b
    else a + [Sep] + b
  }

  /**
   * The shape of `os.path.join(a, b)`: it always ends with `b`; for a
   * relative `b` it starts with `a`, with at most one '/' inserted between,
   * and that '/' is inserted exactly when `a` is non-empty and does not
   * already end in one.
   */
  lemma JoinShape(a: string, b: string)
    ensures var r := Join(a, b);
            |b| <= |r| && r[|r| - |b|..] == b &&
            (!Absolute(b) ==> |a| <= |r| && r[..|a|] == a) &&
            (!Absolute(b) ==> |r| == |a| + |b| || (|r| == |a| + |b| + 1 && r[|a|] == Sep)) &&
            (!Absolute(b) ==> (|r| == |a| + |b| + 1 <==> a != [] && a[|a| - 1] != Sep))
  {
  }

  /**
   * Exactly when `os.path.join` inserts no '/': an absolute `b` is the whole
   * result, and a relative `b` is glued straight onto an empty `a` or one
   * that already ends in '/'.
   */
  lemma JoinCases(a: string, b: string)
    ensures Absolute(b) ==> Join(a, b) == b
    ensures !Absolute(b) && (a == [] || a[|a| - 1] == Sep) ==> Join(a, b) == a + b
    ensures !Absolute(b) && a != [] && a[|a| - 1] != Sep ==> Join(a, b) == a + [Sep] + b
  {
  }

  /** Joining a single component onto any path yields a path whose basename is that component. */
  lemma JoinBasename(a: string, b: string)
    requires NoSep(b)
    ensures Basename(Join(a, b)) == b
  {
    if a == [] {
      BasenameOfComponent(b);
    } else if a[|a| - 1] == Sep {
      assert a + b == a[..|a| - 1] + [Sep] + b;
      BasenameAfterSep(a[..|a| - 1], b);
    } else {
      BasenameAfterSep(a, b);
    }
  }

  /** Joining onto a non-empty single component always inserts exactly one '/'. */
  lemma JoinOntoComponent(a: string, b: string)
    requires a != [] && NoSep(a) && !Absolute(b)
    ensures Join(a, b) == a + [Sep] + b
  {
    assert a[|a| - 1] != Sep;
  }
}
