/** The directory page `dir2body` renders: the entries of the directory,
    sorted by their upper-cased names, directories first and then files,
    each as a link to the entry on the web server, joined with `<br>` line
    breaks.

    The directory listing itself (`os.listdir`, `os.path.isdir`) is taken
    as given: an `Entry` is a name and whether it is a directory.
 */
module Listing {
  import opened PyStrings
  import opened PathNames

  /** One name `os.listdir` returns, and what `os.path.isdir` says of it. */
  datatype Entry = Entry(name: string, isDir: bool)

  /** The separator `dir2body` joins its links with. */
  const Separator: string := "<br>\n"

  /** `str.upper` on one character, for the ASCII letters. */
  function UpperChar(c: char): (u: char)
    ensures 'a' <= c <= 'z' ==> 'A' <= u <= 'Z' && u as int == c as int - 32
    ensures !('a' <= c <= 'z') ==> u == c
  {
    if 'a' <= c <= 'z' then (c as int - 32) as char else c
  }

  /** `str.upper`, character by character. */
  function Upper(s: string): (r: string)
    ensures |r| == |s|
    ensures forall i :: 0 <= i < |s| ==> r[i] == UpperChar(s[i])
  {
    if |s| == 0 then [] else [UpperChar(s[0])] + Upper(s[1..])
  }

  /** Python's `<=` on strings: code point by code point, a prefix first. */
  predicate StrLe(a: string, b: string)
    decreases |a|
  {
    |a| == 0 || (|b| > 0 && (a[0] < b[0] || (a[0] == b[0] && StrLe(a[1..], b[1..]))))
  }

  /** The sort key of `dir2body`: `key=str.upper`. */
  predicate KeyLe(x: Entry, y: Entry)
  {
    StrLe(Upper(x.name), Upper(y.name))
  }

  /** Any two strings are ordered one way or the other. */
  lemma {:induction false} StrLeTotal(a: string, b: string)
    ensures StrLe(a, b) || StrLe(b, a)
    decreases |a|
  {
    if |a| > 0 && |b| > 0 && a[0] == b[0] {
      StrLeTotal(a[1..], b[1..]);
    }
  }

  /** String order is transitive. */
  lemma {:induction false} StrLeTrans(a: string, b: string, c: string)
    requires StrLe(a, b) && StrLe(b, c)
    ensures StrLe(a, c)
    decreases |a|
  {
    if |a| > 0 && a[0] == b[0] && b[0] == c[0] {
      StrLeTrans(a[1..], b[1..], c[1..]);
    }
  }

  /** Every pair of entries is in key order. */
  predicate Sorted(s: seq<Entry>)
  {
    forall i, j :: 0 <= i < j < |s| ==> KeyLe(s[i], s[j])
  }

  /** Insert `x` into a sorted list before the first entry whose key is not
      below it. */
  function Insert(x: Entry, s: seq<Entry>): (r: seq<Entry>)
    requires Sorted(s)
    ensures multiset(r) == multiset(s) + multiset{x}
    ensures Sorted(r)
  {
    if |s| == 0 then [x]
    else if KeyLe(x, s[0]) then
      InsertAtFront(x, s);
      [x] + s
    else
      var rest := Insert(x, s[1..]);
      InsertBehind(x, s, rest);
      assert s == [s[0]] + s[1..];
      [s[0]] + rest
  }

  /** An entry whose key is not above the first of a sorted list can go in
      front of it. */
  lemma InsertAtFront(x: Entry, s: seq<Entry>)
    requires Sorted(s) && |s| > 0 && KeyLe(x, s[0])
    ensures Sorted([x] + s)
  {
    forall j | 0 <= j < |s|
      ensures KeyLe(x, s[j])
    {
      if j > 0 { StrLeTrans(Upper(x.name), Upper(s[0].name), Upper(s[j].name)); }
    }
    forall i, j | 0 <= i < j < |[x] + s|
      ensures KeyLe(([x] + s)[i], ([x] + s)[j])
    {
      if i > 0 { assert ([x] + s)[i] == s[i - 1]; }
      assert ([x] + s)[j] == s[j - 1];
    }
  }

  /** The first entry of a sorted list stays in front when an entry with a
      greater key is inserted into the rest. */
  lemma InsertBehind(x: Entry, s: seq<Entry>, rest: seq<Entry>)
    requires Sorted(s) && |s| > 0 && !KeyLe(x, s[0])
    requires Sorted(rest) && multiset(rest) == multiset(s[1..]) + multiset{x}
    ensures Sorted([s[0]] + rest)
  {
    StrLeTotal(Upper(x.name), Upper(s[0].name));
    forall j | 0 <= j < |rest|
      ensures KeyLe(s[0], rest[j])
    {
      assert rest[j] in multiset(rest);
      if rest[j] != x {
        assert rest[j] in multiset(s[1..]);
        var k :| 0 <= k < |s[1..]| && s[1..][k] == rest[j];
        assert s[k + 1] == rest[j];
      }
    }
    forall i, j | 0 <= i < j < |[s[0]] + rest|
      ensures KeyLe(([s[0]] + rest)[i], ([s[0]] + rest)[j])
    {
      if i > 0 { assert ([s[0]] + rest)[i] == rest[i - 1]; }
      assert ([s[0]] + rest)[j] == rest[j - 1];
    }
  }

  /** `sorted(names, key=str.upper)`, by insertion. */
  function SortByUpper(s: seq<Entry>): (r: seq<Entry>)
    ensures multiset(r) == multiset(s)
    ensures Sorted(r)
  {
    if |s| == 0 then []
    else
      assert s == [s[0]] + s[1..];
      Insert(s[0], SortByUpper(s[1..]))
  }

  /** `r` is the entries of `s` of one kind: only entries of `s` of that
      kind, all of them, and in key order when `s` is. */
  predicate KindFilter(s: seq<Entry>, dirs: bool, r: seq<Entry>)
  {
    && (forall i :: 0 <= i < |r| ==> r[i].isDir == dirs && r[i] in s)
    && (forall i :: 0 <= i < |s| && s[i].isDir == dirs ==> s[i] in r)
    && (Sorted(s) ==> Sorted(r))
  }

  /** The entries of one kind, in their order: `[p for p in paths if
      os.path.isdir(p)]` and its complement. */
  function OfKind(s: seq<Entry>, dirs: bool): (r: seq<Entry>)
    ensures forall i :: 0 <= i < |r| ==> r[i].isDir == dirs && r[i] in s
    ensures forall i :: 0 <= i < |s| && s[i].isDir == dirs ==> s[i] in r
    ensures Sorted(s) ==> Sorted(r)
  {
    if |s| == 0 then []
    else
      var rest := OfKind(s[1..], dirs);
      if s[0].isDir == dirs then
        KeepHead(s, dirs, rest);
        [s[0]] + rest
      else
        DropHead(s, dirs, rest);
        rest
  }

  /** Filtering an entry in front of a run keeps it exactly when it has
      the wanted kind, and then filters the run. */
  lemma OfKindCons(e: Entry, rest: seq<Entry>, dirs: bool)
    ensures OfKind([e] + rest, dirs) == (if e.isDir == dirs then [e] else []) + OfKind(rest, dirs)
  {
    assert ([e] + rest)[0] == e && ([e] + rest)[1..] == rest;
  }

  /** Filtering works piece by piece: the entries of one kind in a
      concatenation are those of each part, in order. With `OfKindCons` this
      fixes the order and the multiplicity of what is kept. */
  lemma {:induction false} OfKindAppend(a: seq<Entry>, b: seq<Entry>, dirs: bool)
    ensures OfKind(a + b, dirs) == OfKind(a, dirs) + OfKind(b, dirs)
    decreases |a|
  {
    if |a| > 0 {
      var e, x := a[0], a[1..];
      var head := if e.isDir == dirs then [e] else [];
      OfKindAppend(x, b, dirs);
      ConsAppend(a, b);
      OfKindCons(e, x + b, dirs);
      OfKindCons(e, x, dirs);
      AppendAssoc(head, OfKind(x, dirs), OfKind(b, dirs));
    } else {
      assert a + b == b;
    }
  }

  /** A non-empty run is its head in front of its tail, also when a second
      run follows. */
  lemma ConsAppend(a: seq<Entry>, b: seq<Entry>)
    requires |a| > 0
    ensures a == [a[0]] + a[1..] && a + b == [a[0]] + (a[1..] + b)
  {
  }

  /** Concatenation is associative. */
  lemma AppendAssoc<T>(x: seq<T>, y: seq<T>, z: seq<T>)
    ensures x + (y + z) == (x + y) + z
  {
  }

  /** Filtering keeps a head of the wanted kind. */
  lemma KeepHead(s: seq<Entry>, dirs: bool, rest: seq<Entry>)
    requires |s| > 0 && s[0].isDir == dirs && KindFilter(s[1..], dirs, rest)
    ensures KindFilter(s, dirs, [s[0]] + rest)
  {
    var r := [s[0]] + rest;
    forall i | 0 <= i < |r|
      ensures r[i].isDir == dirs && r[i] in s
    {
      if i > 0 {
        assert r[i] == rest[i - 1];
        var k :| 0 <= k < |s[1..]| && s[1..][k] == rest[i - 1];
        assert s[k + 1] == r[i];
      }
    }
    forall i | 0 <= i < |s| && s[i].isDir == dirs
      ensures s[i] in r
    {
      if i > 0 { assert s[i] == s[1..][i - 1]; }
    }
    if Sorted(s) {
      SortedTail(s);
      KeepHeadSorted(s, rest);
    }
  }

  /** The tail of a sorted list is sorted. */
  lemma SortedTail(s: seq<Entry>)
    requires |s| > 0 && Sorted(s)
    ensures Sorted(s[1..])
  {
    forall i, j | 0 <= i < j < |s[1..]|
      ensures KeyLe(s[1..][i], s[1..][j])
    {
      assert s[1..][i] == s[i + 1] && s[1..][j] == s[j + 1];
    }
  }

  /** The head of a sorted list goes in front of any sorted selection from
      its tail. */
  lemma KeepHeadSorted(s: seq<Entry>, rest: seq<Entry>)
    requires |s| > 0 && Sorted(s) && Sorted(rest)
    requires forall i :: 0 <= i < |rest| ==> rest[i] in s[1..]
    ensures Sorted([s[0]] + rest)
  {
    forall i | 0 <= i < |rest|
      ensures KeyLe(s[0], rest[i])
    {
      var k :| 0 <= k < |s[1..]| && s[1..][k] == rest[i];
      assert s[k + 1] == rest[i];
    }
    var r := [s[0]] + rest;
    forall i, j | 0 <= i < j < |r|
      ensures KeyLe(r[i], r[j])
    {
      if i > 0 { assert r[i] == rest[i - 1]; }
      assert r[j] == rest[j - 1];
    }
  }

  /** Filtering drops a head of the other kind. */
  lemma DropHead(s: seq<Entry>, dirs: bool, rest: seq<Entry>)
    requires |s| > 0 && s[0].isDir != dirs && KindFilter(s[1..], dirs, rest)
    ensures KindFilter(s, dirs, rest)
  {
    forall i | 0 <= i < |rest|
      ensures rest[i] in s
    {
      var k :| 0 <= k < |s[1..]| && s[1..][k] == rest[i];
      assert s[k + 1] == rest[i];
    }
    forall i | 0 <= i < |s| && s[i].isDir == dirs
      ensures s[i] in rest
    {
      assert s[i] == s[1..][i - 1];
    }
    if Sorted(s) {
      SortedTail(s);
    }
  }

  /** Splitting by kind loses and adds nothing. */
  lemma {:induction false} OfKindSplits(s: seq<Entry>)
    ensures multiset(OfKind(s, true)) + multiset(OfKind(s, false)) == multiset(s)
  {
    if |s| > 0 {
      OfKindSplits(s[1..]);
      OfKindStep(s, true);
      OfKindStep(s, false);
      MultisetOfCons(s);
    }
  }

  /** One step of the kind filter. */
  lemma OfKindStep(s: seq<Entry>, dirs: bool)
    requires |s| > 0
    ensures multiset(OfKind(s, dirs)) ==
              (if s[0].isDir == dirs then multiset{s[0]} else multiset{}) + multiset(OfKind(s[1..], dirs))
  {
  }

  /** A list's multiset is its head plus its tail's. */
  lemma MultisetOfCons(s: seq<Entry>)
    requires |s| > 0
    ensures multiset(s) == multiset{s[0]} + multiset(s[1..])
  {
    assert s == [s[0]] + s[1..];
  }

  /** Sorted directories followed by sorted files are grouped by kind and
      sorted within each group. */
  lemma DirsThenFiles(dirs: seq<Entry>, files: seq<Entry>)
    requires forall k :: 0 <= k < |dirs| ==> dirs[k].isDir
    requires forall k :: 0 <= k < |files| ==> !files[k].isDir
    requires Sorted(dirs) && Sorted(files)
    ensures var r := dirs + files;
            && (forall i, j :: 0 <= i < j < |r| && r[j].isDir ==> r[i].isDir)
            && (forall i, j :: 0 <= i < j < |r| && r[i].isDir == r[j].isDir ==> KeyLe(r[i], r[j]))
  {
    var r := dirs + files;
    forall k | 0 <= k < |r|
      ensures r[k].isDir <==> k < |dirs|
    {
      if k < |dirs| { assert r[k] == dirs[k]; } else { assert r[k] == files[k - |dirs|]; }
    }
    forall i, j | 0 <= i < j < |dirs|
      ensures KeyLe(r[i], r[j])
    {
      assert r[i] == dirs[i] && r[j] == dirs[j];
    }
    forall i, j | |dirs| <= i < j < |r|
      ensures KeyLe(r[i], r[j])
    {
      assert r[i] == files[i - |dirs|] && r[j] == files[j - |dirs|];
    }
  }

  /** The order `dir2body` lists a directory in: every directory before
      every file, each group by upper-cased name, and nothing lost or
      added. */
  function ListingOrder(entries: seq<Entry>): (r: seq<Entry>)
    ensures multiset(r) == multiset(entries)
    ensures forall i, j :: 0 <= i < j < |r| && r[j].isDir ==> r[i].isDir
    ensures forall i, j :: 0 <= i < j < |r| && r[i].isDir == r[j].isDir ==> KeyLe(r[i], r[j])
  {
    var sorted := SortByUpper(entries);
    var dirs := OfKind(sorted, true);
    var files := OfKind(sorted, false);
    var r := dirs + files;
    OfKindSplits(sorted);
    DirsThenFiles(dirs, files);
    r
  }

  /** The server address that stands in for the home directory. */
  function ServerRoot(port: string): string
  {
    "http://127.0.0.1:" + port
  }

  /** The address of an entry: its full path with every occurrence of the
      home directory replaced by the server's address. A path under the home
      directory starts with the server's address; a path that does not
      mention the home directory is left as it is. */
  function EntryUrl(home: string, port: string, path: string): (r: string)
    ensures home != [] && StartsWith(path, home) ==>
              StartsWith(r, ServerRoot(port)) && |r| >= |ServerRoot(port)|
    ensures home != [] && !Occurs(home, path) ==> r == path
  {
    if home != [] && StartsWith(path, home) then
      assert path == home + path[|home|..];
      ReplaceMatches(path[|home|..], home, ServerRoot(port));
      var r := Replace(path, home, ServerRoot(port));
      assert r[..|ServerRoot(port)|] == ServerRoot(port);
      r
    else Replace(path, home, ServerRoot(port))
  }

  /** A path made of the home directory and a rest that does not mention
      it again is served at the server's address followed by that rest. */
  lemma EntryUrlOfHomePath(home: string, port: string, rest: string)
    requires home != [] && !Occurs(home, rest)
    ensures EntryUrl(home, port, home + rest) == ServerRoot(port) + rest
  {
    ReplaceMatches(rest, home, ServerRoot(port));
  }

  /** The `link` helper of `dir2body`: the opening text `t`, the icon, a
      non-breaking space, the entry's name, then `t` with a slash after its
      first character, which turns `<b>` into its closing tag. */
  function LinkText(icon: string, t: string, path: string): string
    requires |t| > 0
  {
    t + icon + "&nbsp;" + Basename(path) + [t[0]] + "/" + t[1..]
  }

  /** The folder icon. */
  const FolderIcon: string := "\U{1F4C1}"

  /** The page icon. */
  const PageIcon: string := "\U{1F4C4}"

  /** The link text of a directory: bold folder icon and name. */
  function DirLabel(path: string): (r: string)
    ensures r == "<b>" + FolderIcon + "&nbsp;" + Basename(path) + "</b>"
  {
    DirLinkText(Basename(path));
    LinkText(FolderIcon, "<b>", path)
  }

  /** The `link` helper's text for a directory named `name`: the slash after
      the first character of `<b>` makes `</b>`. */
  lemma DirLinkText(name: string)
    ensures "<b>" + FolderIcon + "&nbsp;" + name + ['<'] + "/" + "<b>"[1..] ==
            "<b>" + FolderIcon + "&nbsp;" + name + "</b>"
  {
    var head := "<b>" + FolderIcon + "&nbsp;" + name;
    assert ['<'] + "/" + "<b>"[1..] == "</b>";
    assert head + ['<'] + "/" + "<b>"[1..] == head + (['<'] + "/" + "<b>"[1..]);
  }

  /** Removing the slash after a text that holds none leaves the text. */
  lemma DropTrailingSlash(x: string)
    requires '/' !in x
    ensures Replace(x + "/", "/", "") == x
  {
    ReplaceSkips(x, "/", "/", "");
    ReplaceMatches([], "/", "");
    assert "/" + [] == "/";
    assert x + ("" + []) == x;
  }

  /** The link text of a file: page icon and name between spaces. The slash
      the `link` helper puts at its end is removed again, and the rest holds
      none: the icon and the non-breaking space have no slash, and a base
      name never has one. */
  function FileLabel(path: string): (r: string)
    ensures r == " " + PageIcon + "&nbsp;" + Basename(path) + " "
    ensures '/' !in r
  {
    var x := " " + PageIcon + "&nbsp;" + Basename(path) + " ";
    FileLinkText(path);
    DropTrailingSlash(x);
    Replace(LinkText(PageIcon, " ", path), "/", "")
  }

  /** The `link` helper's text for a file, before the slash is removed. */
  lemma FileLinkText(path: string)
    ensures LinkText(PageIcon, " ", path) == " " + PageIcon + "&nbsp;" + Basename(path) + " " + "/"
    ensures '/' !in " " + PageIcon + "&nbsp;" + Basename(path) + " "
  {
    var name := Basename(path);
    var head := " " + PageIcon + "&nbsp;";
    assert '/' !in head;
    assert forall k :: 0 <= k < |name| ==> name[k] != '/';
    assert forall k :: 0 <= k < |head + name + " "| ==> (head + name + " ")[k] != '/' by {
      forall k | 0 <= k < |head + name + " "|
        ensures (head + name + " ")[k] != '/'
      {
        if k < |head| {
          assert (head + name + " ")[k] == head[k];
        } else if k < |head| + |name| {
          assert (head + name + " ")[k] == name[k - |head|];
        }
      }
    }
  }

  /** One anchor. */
  function Anchor(url: string, text: string): string
  {
    "<a href=\"" + url + "\">" + text + "</a>"
  }

  /** The anchor of one entry of `dir`, labelled as a directory or a
      file. */
  function EntryAnchor(home: string, port: string, dir: string, e: Entry, dirs: bool): string
  {
    var path := PathJoin(dir, e.name);
    Anchor(EntryUrl(home, port, path), if dirs then DirLabel(path) else FileLabel(path))
  }

  /** The anchors for a run of entries of one kind under `dir`, one per
      entry and in its order. */
  function Anchors(home: string, port: string, dir: string, s: seq<Entry>, dirs: bool): (r: seq<string>)
    ensures |r| == |s|
    ensures forall i :: 0 <= i < |s| ==> r[i] == EntryAnchor(home, port, dir, s[i], dirs)
  {
    if |s| == 0 then []
    else
      var rest := Anchors(home, port, dir, s[1..], dirs);
      assert forall i :: 1 <= i < |s| ==> s[i] == s[1..][i - 1];
      [EntryAnchor(home, port, dir, s[0], dirs)] + rest
  }

  /** The directory `dir2body` lists: `home` joined with `cwd`, one
      leading slash of `cwd` dropped. */
  function ListedDir(home: string, cwd: string): string
  {
    var i := if |cwd| > 0 && cwd[0] == '/' then 1 else 0;
    PathJoin(home, cwd[i..])
  }

  /** One anchor per entry, each labelled by its own kind, in order. */
  function AnchorsInOrder(home: string, port: string, dir: string, s: seq<Entry>): (r: seq<string>)
    ensures |r| == |s|
  {
    if |s| == 0 then []
    else [EntryAnchor(home, port, dir, s[0], s[0].isDir)] + AnchorsInOrder(home, port, dir, s[1..])
  }

  /** A run of entries of one kind keeps all of itself under that kind and
      nothing under the other. */
  lemma {:induction false} OfKindAll(s: seq<Entry>, dirs: bool)
    requires forall k :: 0 <= k < |s| ==> s[k].isDir == dirs
    ensures OfKind(s, dirs) == s && OfKind(s, !dirs) == []
    decreases |s|
  {
    if |s| > 0 {
      var e, t := s[0], s[1..];
      assert forall k :: 0 <= k < |t| ==> t[k].isDir == dirs by {
        forall k | 0 <= k < |t|
          ensures t[k].isDir == dirs
        {
          assert t[k] == s[k + 1];
        }
      }
      OfKindAll(t, dirs);
      ConsAppend(s, []);
      OfKindCons(e, t, dirs);
      OfKindCons(e, t, !dirs);
    }
  }

  /** Every directory comes before every file. */
  predicate DirsFirst(r: seq<Entry>)
  {
    forall i, j :: 0 <= i < j < |r| && r[j].isDir ==> r[i].isDir
  }

  /** Dropping the head keeps directories first; a head that is a file
      means there is no directory at all. */
  lemma DirsFirstTail(r: seq<Entry>)
    requires DirsFirst(r) && |r| > 0
    ensures DirsFirst(r[1..])
    ensures !r[0].isDir ==> forall k :: 0 <= k < |r| ==> r[k].isDir == false
  {
    var t := r[1..];
    forall i, j | 0 <= i < j < |t| && t[j].isDir
      ensures t[i].isDir
    {
      assert t[i] == r[i + 1] && t[j] == r[j + 1];
    }
    var h := r[0];
    if !h.isDir {
      forall k | 0 < k < |r|
        ensures !r[k].isDir
      {
        assert r[k].isDir ==> h.isDir;
      }
    }
  }

  /** In a list with every directory before every file, the directories
      followed by the files are the list itself. */
  lemma {:induction false} GroupedByKind(r: seq<Entry>)
    requires DirsFirst(r)
    ensures OfKind(r, true) + OfKind(r, false) == r
    decreases |r|
  {
    if |r| > 0 {
      DirsFirstTail(r);
      if r[0].isDir {
        var e, t := r[0], r[1..];
        GroupedByKind(t);
        ConsAppend(r, []);
        OfKindCons(e, t, true);
        OfKindCons(e, t, false);
        AppendAssoc([e], OfKind(t, true), OfKind(t, false));
      } else {
        OfKindAll(r, false);
      }
    }
  }

  /** For a run of entries of one kind, labelling every entry by that kind
      is labelling each by its own. */
  lemma {:induction false} AnchorsOfKind(home: string, port: string, dir: string, s: seq<Entry>, dirs: bool)
    requires forall k :: 0 <= k < |s| ==> s[k].isDir == dirs
    ensures Anchors(home, port, dir, s, dirs) == AnchorsInOrder(home, port, dir, s)
    decreases |s|
  {
    if |s| > 0 {
      var t := s[1..];
      assert forall k :: 0 <= k < |t| ==> t[k].isDir == dirs by {
        forall k | 0 <= k < |t|
          ensures t[k].isDir == dirs
        {
          assert t[k] == s[k + 1];
        }
      }
      AnchorsOfKind(home, port, dir, t, dirs);
    }
  }

  /** The anchors of two lists placed one after the other are the anchors
      of the first followed by those of the second. */
  lemma {:induction false} AnchorsInOrderAppend(home: string, port: string, dir: string, a: seq<Entry>, b: seq<Entry>)
    ensures AnchorsInOrder(home, port, dir, a + b) ==
            AnchorsInOrder(home, port, dir, a) + AnchorsInOrder(home, port, dir, b)
    decreases |a|
  {
    if |a| > 0 {
      ConsAppend(a, b);
      AnchorsInOrderAppend(home, port, dir, a[1..], b);
      var x := [EntryAnchor(home, port, dir, a[0], a[0].isDir)];
      AppendAssoc(x, AnchorsInOrder(home, port, dir, a[1..]), AnchorsInOrder(home, port, dir, b));
    } else {
      assert a + b == b;
    }
  }

  /** Directory anchors followed by file anchors are the anchors of the
      directories followed by the files, each labelled by its kind. */
  lemma AnchorsOfGroups(home: string, port: string, dir: string, dirs: seq<Entry>, files: seq<Entry>)
    requires forall k :: 0 <= k < |dirs| ==> dirs[k].isDir
    requires forall k :: 0 <= k < |files| ==> !files[k].isDir
    ensures Anchors(home, port, dir, dirs, true) + Anchors(home, port, dir, files, false) ==
            AnchorsInOrder(home, port, dir, dirs + files)
  {
    AnchorsOfKind(home, port, dir, dirs, true);
    AnchorsOfKind(home, port, dir, files, false);
    AnchorsInOrderAppend(home, port, dir, dirs, files);
  }

  /** `dir2body(cwd)` over the given listing of the listed directory: the
      anchors of the entries, in listing order and each labelled by its
      kind, joined with `<br>` and a newline. The page is empty exactly
      when the directory is. */
  function DirBody(home: string, port: string, cwd: string, entries: seq<Entry>): (r: string)
    ensures r == Join(Separator, AnchorsInOrder(home, port, ListedDir(home, cwd), ListingOrder(entries)))
    ensures entries == [] <==> r == []
  {
    var dir := ListedDir(home, cwd);
    var order := ListingOrder(entries);
    var dirs := OfKind(order, true);
    var files := OfKind(order, false);
    var pieces := Anchors(home, port, dir, dirs, true) + Anchors(home, port, dir, files, false);
    GroupedByKind(order);
    AnchorsOfGroups(home, port, dir, dirs, files);
    assert |order| == |entries| by { assert |multiset(order)| == |multiset(entries)|; }
    assert |pieces| == |order|;
    assert |pieces| > 0 ==> |Join(Separator, pieces)| > 0 by {
      if |pieces| > 0 {
        assert |pieces[0]| > 0;
        JoinLength(Separator, pieces);
        assert TotalLength(pieces) >= |pieces[0]|;
      }
    }
    Join(Separator, pieces)
  }
}
