/** How `downloadSingle` picks the file extension of a track: the URL is cut
    at its first `?` and handed to Node's POSIX `path.extname`; an empty
    answer falls back to `.mp3`. */
module Paths {

  /** No position of `s` holds `c`. */
  predicate Lacks(s: string, c: char)
  {
    forall i :: 0 <= i < |s| ==> s[i] != c
  }

  /** `url.split("?")[0]`: the text before the first `?`. */
  function BeforeQuery(url: string): (r: string)
    ensures |r| <= |url| && r == url[..|r|]
    ensures Lacks(r, '?')
    ensures |r| < |url| ==> url[|r|] == '?'
    decreases |url|
  {
    if |url| == 0 || url[0] == '?' then "" else [url[0]] + BeforeQuery(url[1..])
  }

  /** Index of the last `c` in `s`, or -1. */
  function LastIndex(s: string, c: char): (k: int)
    ensures -1 <= k < |s|
    ensures k >= 0 ==> s[k] == c
    ensures forall i :: k < i < |s| ==> s[i] != c
    decreases |s|
  {
    if |s| == 0 then -1
    else if s[|s| - 1] == c then |s| - 1
    else LastIndex(s[..|s| - 1], c)
  }

  /** `path.extname` ignores trailing slashes. */
  function DropTrailingSlashes(p: string): (r: string)
    ensures |r| <= |p| && r == p[..|r|]
    ensures |r| > 0 ==> r[|r| - 1] != '/'
    decreases |p|
  {
    if |p| > 0 && p[|p| - 1] == '/' then DropTrailingSlashes(p[..|p| - 1]) else p
  }

  /** The last segment of a path, after its trailing slashes are dropped. */
  function BaseName(p: string): (b: string)
    ensures Lacks(b, '/')
  {
    var d := DropTrailingSlashes(p);
    d[LastIndex(d, '/') + 1..]
  }

  /** `path.extname` on POSIX: from the last `.` of the base name to its end;
      empty when the base name has no `.`, when its only `.` opens it (as in
      `.profile`), and for the base name `..`. */
  function Extname(p: string): (r: string)
    ensures r == "" || (r[0] == '.' && Lacks(r[1..], '.') && Lacks(r, '/'))
  {
    var b := BaseName(p);
    var k := LastIndex(b, '.');
    if k <= 0 || b == ".." then "" else b[k..]
  }

  /** `path.extname(url.split("?")[0]) || ".mp3"`. */
  function AudioExtension(url: string): (r: string)
    ensures |r| > 0 && r[0] == '.'
    ensures Lacks(r[1..], '.') && Lacks(r, '/') && Lacks(r, '?')
  {
    var e := Extname(BeforeQuery(url));
    ExtnameWithin(BeforeQuery(url));
    if e == "" then
      assert ".mp3"[1..] == "mp3";
      ".mp3"
    else e
  }

  /** A slice of a string that lacks `c` lacks it too. */
  lemma LacksSlice(s: string, c: char, lo: nat, hi: nat)
    requires Lacks(s, c) && lo <= hi <= |s|
    ensures Lacks(s[lo..hi], c)
  {
    assert forall i :: 0 <= i < hi - lo ==> s[lo..hi][i] == s[lo + i];
  }

  /** A non-empty extension is a slice of the path, so it holds no `?` when
      the path holds none. */
  lemma ExtnameWithin(p: string)
    requires Lacks(p, '?')
    ensures Lacks(Extname(p), '?')
  {
    var d := DropTrailingSlashes(p);
    LacksSlice(p, '?', 0, |d|);
    assert p[0..|d|] == d;
    var j := LastIndex(d, '/') + 1;
    LacksSlice(d, '?', j, |d|);
    assert d[j..|d|] == BaseName(p);
    var b := BaseName(p);
    var k := LastIndex(b, '.');
    if k > 0 && b != ".." {
      LacksSlice(b, '?', k, |b|);
      assert b[k..|b|] == Extname(p);
    }
  }

  lemma {:induction false} LastIndexOfJoin(dir: string, c: char, name: string)
    requires Lacks(name, c)
    ensures LastIndex(dir + [c] + name, c) == |dir|
    decreases |name|
  {
    var s := dir + [c] + name;
    if |name| == 0 {
      assert s[|s| - 1] == c;
    } else {
      assert s[..|s| - 1] == dir + [c] + name[..|name| - 1];
      LastIndexOfJoin(dir, c, name[..|name| - 1]);
    }
  }

  lemma {:induction false} BeforeQueryOf(path: string, query: string)
    requires Lacks(path, '?')
    requires query == "" || query[0] == '?'
    ensures BeforeQuery(path + query) == path
    decreases |path|
  {
    if |path| == 0 {
      assert path + query == query;
    } else {
      assert (path + query)[0] == path[0];
      assert (path + query)[1..] == path[1..] + query;
      BeforeQueryOf(path[1..], query);
    }
  }

  /** Joining two strings that lack `c` gives one that lacks it. */
  lemma LacksJoin(a: string, b: string, c: char)
    requires Lacks(a, c) && Lacks(b, c)
    ensures Lacks(a + b, c)
  {
    assert forall i :: 0 <= i < |a| ==> (a + b)[i] == a[i];
    assert forall i :: |a| <= i < |a| + |b| ==> (a + b)[i] == b[i - |a|];
  }

  /** The base name of `dir/name` is `name`. */
  lemma BaseNameOfJoin(dir: string, name: string)
    requires name != "" && Lacks(name, '/')
    ensures BaseName(dir + ['/'] + name) == name
  {
    var path := dir + ['/'] + name;
    assert path[|path| - 1] == name[|name| - 1];
    assert DropTrailingSlashes(path) == path;
    LastIndexOfJoin(dir, '/', name);
    assert path[|dir| + 1..] == name;
  }

  /** `path.extname` of `dir/stem.ext` is `.ext`. */
  lemma ExtnameOfNamedFile(dir: string, stem: string, ext: string)
    requires stem != "" && ext != ""
    requires Lacks(stem, '/') && Lacks(ext, '/') && Lacks(ext, '.')
    ensures Extname(dir + "/" + stem + "." + ext) == "." + ext
  {
    NamedPath(dir, stem, ext);
    NamedBase(dir, stem, ext);
    LastIndexOfJoin(stem, '.', ext);
    NamedSuffix(stem, ext);
    ExtnameOfBase(dir + ['/'] + (stem + ['.'] + ext), stem + ['.'] + ext, |stem|);
  }

  lemma NamedPath(dir: string, stem: string, ext: string)
    ensures dir + "/" + stem + "." + ext == dir + ['/'] + (stem + ['.'] + ext)
  {
  }

  lemma NamedBase(dir: string, stem: string, ext: string)
    requires Lacks(stem, '/') && Lacks(ext, '/')
    ensures BaseName(dir + ['/'] + (stem + ['.'] + ext)) == stem + ['.'] + ext
  {
    LacksJoin(stem, ['.'], '/');
    LacksJoin(stem + ['.'], ext, '/');
    BaseNameOfJoin(dir, stem + ['.'] + ext);
  }

  lemma NamedSuffix(stem: string, ext: string)
    ensures (stem + ['.'] + ext)[|stem|..] == "." + ext
  {
    assert stem + ['.'] + ext == stem + (['.'] + ext);
    DropPrefix(stem, ['.'] + ext);
  }

  lemma ExtnameOfBase(p: string, b: string, k: nat)
    requires BaseName(p) == b && LastIndex(b, '.') == k > 0 && |b| != 2
    ensures Extname(p) == b[k..]
  {
    assert b != "..";
  }

  lemma DropPrefix(a: string, b: string)
    ensures (a + b)[|a|..] == b
  {
  }

  /** A URL whose path ends in `name.ext` (an optional query after it) gets
      the extension `.ext`. */
  lemma ExtensionOfNamedFile(dir: string, stem: string, ext: string, query: string)
    requires stem != "" && ext != ""
    requires Lacks(stem, '/') && Lacks(ext, '/') && Lacks(ext, '.')
    requires Lacks(dir, '?') && Lacks(stem, '?') && Lacks(ext, '?')
    requires query == "" || query[0] == '?'
    ensures AudioExtension(dir + "/" + stem + "." + ext + query) == "." + ext
  {
    var path := dir + "/" + stem + "." + ext;
    assert dir + "/" + stem + "." + ext + query == path + query;
    LacksJoin(dir, "/", '?');
    LacksJoin(dir + "/", stem, '?');
    LacksJoin(dir + "/" + stem, ".", '?');
    LacksJoin(dir + "/" + stem + ".", ext, '?');
    BeforeQueryOf(path, query);
    ExtnameOfNamedFile(dir, stem, ext);
  }

  /** A URL whose last path segment has no `.` gets the default `.mp3`. */
  lemma ExtensionDefaultsToMp3(dir: string, name: string, query: string)
    requires name != ""
    requires Lacks(name, '/') && Lacks(name, '.')
    requires Lacks(dir, '?') && Lacks(name, '?')
    requires query == "" || query[0] == '?'
    ensures AudioExtension(dir + "/" + name + query) == ".mp3"
  {
    var path := dir + "/" + name;
    assert dir + "/" + name + query == path + query;
    LacksJoin(dir, "/", '?');
    LacksJoin(dir + "/", name, '?');
    BeforeQueryOf(path, query);
    assert path == dir + ['/'] + name;
    BaseNameOfJoin(dir, name);
  }
}
