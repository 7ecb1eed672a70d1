/** The pure string functions on file names: `str.rfind` for one
    character and the POSIX `os.path` functions `splitext`, `join` (of two
    parts) and `basename`.
 */
module PathNames {

  /** `s.rfind(c)`: the index of the last `c` in `s`, or -1. */
  function RFind(s: string, c: char): (i: int)
    ensures -1 <= i < |s|
    ensures i >= 0 ==> s[i] == c
    ensures forall j :: i < j < |s| ==> s[j] != c
  {
    if |s| == 0 then -1
    else if s[|s| - 1] == c then |s| - 1
    else RFind(s[..|s| - 1], c)
  }

  /** True when some character of `p[lo..hi]` is not a dot. */
  predicate HasNonDot(p: string, lo: int, hi: int)
    requires 0 <= lo && hi <= |p|
  {
    exists k :: lo <= k < hi && p[k] != '.'
  }

  /** No slash at or after index `j`: `j` lies in the last path component. */
  predicate NoSlashFrom(p: string, j: int)
  {
    forall k :: 0 <= k < |p| && j <= k ==> p[k] != '/'
  }

  /** A dot at `i` in the last component, preceded in it by a non-dot at
      `j`. */
  predicate DotAfterStem(p: string, j: int, i: int)
  {
    0 <= j < i < |p| && p[j] != '.' && p[i] == '.' && NoSlashFrom(p, j)
  }

  /** True when the last path component has a dot that follows some other
      character than a dot. */
  predicate HasExtension(p: string)
  {
    exists j, i :: 0 <= j < i < |p| && DotAfterStem(p, j, i)
  }

  /** POSIX `os.path.splitext(p)`: the extension starts at the last dot of the
      last path component, unless everything before that dot in the component
      is dots (so `.bashrc` and `..` have no extension). */
  function SplitExt(p: string): (parts: (string, string))
    ensures parts.0 + parts.1 == p
    ensures parts.1 == "" || parts.1[0] == '.'
    ensures forall k :: 0 <= k < |parts.1| ==> parts.1[k] != '/'
    ensures forall k :: 1 <= k < |parts.1| ==> parts.1[k] != '.'
    ensures parts.1 != "" <==> HasExtension(p)
  {
    var sepIndex := RFind(p, '/');
    var dotIndex := RFind(p, '.');
    SplitPointIsExtension(p);
    if dotIndex > sepIndex && HasNonDot(p, sepIndex + 1, dotIndex) then
      (p[..dotIndex], p[dotIndex..])
    else
      (p, "")
  }

  /** The split test of `SplitExt` holds exactly when the name has an
      extension. */
  lemma SplitPointIsExtension(p: string)
    ensures var sepIndex := RFind(p, '/');
            var dotIndex := RFind(p, '.');
            (dotIndex > sepIndex && HasNonDot(p, sepIndex + 1, dotIndex)) <==> HasExtension(p)
  {
    var sepIndex := RFind(p, '/');
    var dotIndex := RFind(p, '.');
    if dotIndex > sepIndex && HasNonDot(p, sepIndex + 1, dotIndex) {
      var k :| sepIndex + 1 <= k < dotIndex && p[k] != '.';
      assert DotAfterStem(p, k, dotIndex);
    }
    if HasExtension(p) {
      var j, i :| 0 <= j < i < |p| && DotAfterStem(p, j, i);
      assert p[i] == '.';
      assert dotIndex >= i;
      assert sepIndex < j;
      assert HasNonDot(p, sepIndex + 1, dotIndex) by {
        assert sepIndex + 1 <= j < dotIndex && p[j] != '.';
      }
    }
  }

  /** The last dot of a name with a plain stem starts its extension. */
  lemma SplitExtOfStemDotExt(stem: string, ext: string)
    requires stem != "" && stem[0] != '.'
    requires forall k :: 0 <= k < |stem| ==> stem[k] != '/'
    requires forall k :: 0 <= k < |ext| ==> ext[k] != '/' && ext[k] != '.'
    ensures SplitExt(stem + "." + ext) == (stem, "." + ext)
  {
    var p := stem + "." + ext;
    var dotIndex := RFind(p, '.');
    var sepIndex := RFind(p, '/');
    assert p[|stem|] == '.';
    assert dotIndex == |stem| by {
      forall j | |stem| < j < |p|
        ensures p[j] != '.'
      {
        assert p[j] == ext[j - |stem| - 1];
      }
    }
    assert sepIndex == -1 by {
      forall j | 0 <= j < |p|
        ensures p[j] != '/'
      {
        if j < |stem| {
          assert p[j] == stem[j];
        } else if j > |stem| {
          assert p[j] == ext[j - |stem| - 1];
        }
      }
    }
    assert p[0] == stem[0];
    assert HasNonDot(p, 0, dotIndex);
    assert p[..dotIndex] == stem;
    assert p[dotIndex..] == "." + ext;
  }

  /** POSIX `os.path.join(a, b)`: an absolute `b` replaces `a`; otherwise a
      slash is put between them unless `a` is empty or already ends in one. */
  function PathJoin(a: string, b: string): (r: string)
    ensures |b| > 0 && b[0] == '/' ==> r == b
    ensures (|b| == 0 || b[0] != '/') ==> exists x :: r == x + b && (x == [] || x[|x| - 1] == '/')
    ensures (|b| == 0 || b[0] != '/') ==>
              && |b| <= |r| && r[|r| - |b|..] == b
              && r[..|r| - |b|] in {a, a + "/"}
              && ((a == [] || a[|a| - 1] == '/') ==> r[..|r| - |b|] == a)
  {
    if |b| > 0 && b[0] == '/' then b
    else if a == [] || a[|a| - 1] == '/' then a + b
    else
      assert (a + "/")[|a + "/"| - 1] == '/';
      a + "/" + b
  }

  /** POSIX `os.path.basename(p)`: what follows the last slash. */
  function Basename(p: string): (r: string)
    ensures forall k :: 0 <= k < |r| ==> r[k] != '/'
    ensures |r| <= |p| && r == p[|p| - |r|..]
    ensures r == p || p[|p| - |r| - 1] == '/'
  {
    var i := RFind(p, '/');
    var r := p[i + 1..];
    assert forall k :: 0 <= k < |r| ==> r[k] != '/' by {
      forall k | 0 <= k < |r|
        ensures r[k] != '/'
      {
        assert r[k] == p[i + 1 + k];
      }
    }
    r
  }

  /** A slash-free name after an empty prefix or one ending in a slash is
      what `basename` returns. */
  lemma BasenameAfterSlash(x: string, name: string)
    requires forall k :: 0 <= k < |name| ==> name[k] != '/'
    requires x == [] || x[|x| - 1] == '/'
    ensures Basename(x + name) == name
  {
    var p := x + name;
    var i := RFind(p, '/');
    forall j | |x| <= j < |p|
      ensures p[j] != '/'
    {
      assert p[j] == name[j - |x|];
    }
    if x != [] {
      assert p[|x| - 1] == '/';
    }
    assert i == |x| - 1;
    assert p[i + 1..] == name;
  }

  /** The name of an entry joined onto its directory comes back out of
      `basename`. */
  lemma BasenameOfJoin(dir: string, name: string)
    requires name != [] && forall k :: 0 <= k < |name| ==> name[k] != '/'
    ensures Basename(PathJoin(dir, name)) == name
  {
    var x := if dir == [] || dir[|dir| - 1] == '/' then dir else dir + "/";
    assert x == [] || x[|x| - 1] == '/';
    assert PathJoin(dir, name) == x + name;
    BasenameAfterSlash(x, name);
  }
}
