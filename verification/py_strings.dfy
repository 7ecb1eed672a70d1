/** The Python `str` operations the rendering helpers rely on:
    `startswith`, `replace` (every non-overlapping occurrence, left to right,
    including Python's rule for an empty pattern) and `join`.
 */
module PyStrings {

  /** `s.startswith(p)`. */
  predicate StartsWith(s: string, p: string)
  {
    |p| <= |s| && s[..|p|] == p
  }

  /** True when `pat` occurs in `s` starting at index `i`. */
  predicate OccursAt(pat: string, s: string, i: int)
  {
    0 <= i && i + |pat| <= |s| && s[i..i + |pat|] == pat
  }

  /** True when `pat` occurs in `s` at some position. */
  predicate Occurs(pat: string, s: string)
  {
    exists i :: 0 <= i <= |s| && OccursAt(pat, s, i)
  }

  /** `s.replace(pat, sub)`. A non-empty `pat` is matched left to right and
      every non-overlapping occurrence replaced; an empty `pat` matches
      before every character and at the end, as in Python. */
  function Replace(s: string, pat: string, sub: string): (r: string)
    ensures pat == [] ==> |r| >= |s| && (|sub| > 0 ==> |r| > |s|)
    ensures pat != [] && !Occurs(pat, s) ==> r == s
    decreases |s|
  {
    if pat == [] then
      if s == [] then sub else sub + [s[0]] + Replace(s[1..], pat, sub)
    else if s == [] then []
    else if StartsWith(s, pat) then
      assert Occurs(pat, s) by { assert OccursAt(pat, s, 0); }
      sub + Replace(s[|pat|..], pat, sub)
    else
      assert !Occurs(pat, s) ==> !Occurs(pat, s[1..]) by {
        if Occurs(pat, s[1..]) {
          var i :| 0 <= i <= |s[1..]| && OccursAt(pat, s[1..], i);
          assert i + |pat| <= |s[1..]| && s[1..][i..i + |pat|] == pat;
          assert s[1..][i..i + |pat|] == s[i + 1..i + 1 + |pat|];
          assert OccursAt(pat, s, i + 1);
        }
      }
      [s[0]] + Replace(s[1..], pat, sub)
  }

  /** Replacing the empty pattern inserts `sub` before every character and
      at the end: one copy more than the text has characters. */
  lemma {:induction false} ReplaceEmptyLength(s: string, sub: string)
    ensures |Replace(s, [], sub)| == |s| + (|s| + 1) * |sub|
    decreases |s|
  {
    if s != [] {
      ReplaceEmptyLength(s[1..], sub);
      assert |Replace(s, [], sub)| == |sub| + 1 + |Replace(s[1..], [], sub)|;
      assert (|s| + 1) * |sub| == |sub| + |s| * |sub|;
    }
  }

  /** Skipping a stretch of text in which the pattern cannot start. */
  lemma {:induction false} ReplaceSkips(x: string, s: string, pat: string, sub: string)
    requires pat != [] && pat[0] !in x
    ensures Replace(x + s, pat, sub) == x + Replace(s, pat, sub)
  {
    if x != [] {
      var xs := x + s;
      assert xs[0] == x[0] && xs[1..] == x[1..] + s;
      assert xs[0] != pat[0];
      assert !StartsWith(xs, pat) by {
        if |pat| <= |xs| { assert xs[..|pat|][0] == xs[0]; }
      }
      ReplaceNoMatch(xs, pat, sub);
      ReplaceSkips(x[1..], s, pat, sub);
      Recombine(x, Replace(s, pat, sub));
    } else {
      assert x + s == s;
    }
  }

  /** Putting a text's first character back in front of its rest. */
  lemma Recombine(x: string, rest: string)
    requires x != []
    ensures [x[0]] + (x[1..] + rest) == x + rest
  {
    assert x == [x[0]] + x[1..];
  }

  /** Passing over a character where the pattern does not start. */
  lemma ReplaceNoMatch(s: string, pat: string, sub: string)
    requires pat != [] && s != [] && !StartsWith(s, pat)
    ensures Replace(s, pat, sub) == [s[0]] + Replace(s[1..], pat, sub)
  {
  }

  /** Replacing at a match. */
  lemma ReplaceMatches(s: string, pat: string, sub: string)
    requires pat != []
    ensures Replace(pat + s, pat, sub) == sub + Replace(s, pat, sub)
  {
    assert (pat + s)[..|pat|] == pat;
    assert (pat + s)[|pat|..] == s;
  }

  /** `sep.join(pieces)`. */
  function Join(sep: string, pieces: seq<string>): (r: string)
    ensures |pieces| == 1 ==> r == pieces[0]
    ensures |pieces| == 0 ==> r == []
  {
    if |pieces| == 0 then []
    else if |pieces| == 1 then pieces[0]
    else pieces[0] + sep + Join(sep, pieces[1..])
  }

  /** `join` puts exactly one separator between neighbours: its length is
      the pieces' total plus one separator per gap. */
  lemma {:induction false} JoinLength(sep: string, pieces: seq<string>)
    requires |pieces| > 0
    ensures |Join(sep, pieces)| == TotalLength(pieces) + (|pieces| - 1) * |sep|
  {
    if |pieces| > 1 {
      JoinLength(sep, pieces[1..]);
      assert TotalLength(pieces) == |pieces[0]| + TotalLength(pieces[1..]);
    }
  }

  /** The summed length of a list of strings. */
  function TotalLength(pieces: seq<string>): nat
  {
    if |pieces| == 0 then 0 else |pieces[0]| + TotalLength(pieces[1..])
  }
}
