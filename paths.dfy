/**
 * The sandbox guard of the session file API (backend/editorApi.ts):
 * `getSessionFilePath` joins the requested path to the session directory,
 * resolves it, and accepts it when the resolved string starts with the
 * session directory's string. Paths are modelled as POSIX paths: absolute,
 * `/`-separated, a canonical path being a list of segments.
 */
module Paths {
  import opened Wrappers

  /** A segment of a canonical path: non-empty, no separator, not `.` or `..`. */
  predicate IsName(s: string) {
    s != "" && s != "." && s != ".." && '/' !in s
  }

  predicate IsCanonical(p: seq<string>) {
    forall i :: 0 <= i < |p| ==> IsName(p[i])
  }

  // ----------------------------------------------------------- splitting

  /** The index of the first separator. */
  function FirstSlash(s: string): (i: nat)
    requires '/' in s
    ensures i < |s| && s[i] == '/' && '/' !in s[..i]
  {
    if s[0] == '/' then 0
    else
      var j := FirstSlash(s[1..]);
      assert s[..j + 1] == [s[0]] + s[1..][..j];
      j + 1
  }

  /** The pieces of `s` between separators. */
  function Split(s: string): (parts: seq<string>)
    ensures |parts| >= 1
    ensures forall i :: 0 <= i < |parts| ==> '/' !in parts[i]
    decreases |s|
  {
    if '/' !in s then [s]
    else
      var i := FirstSlash(s);
      [s[..i]] + Split(s[i + 1..])
  }

  lemma SplitAtSlash(a: string, b: string)
    requires '/' !in a
    ensures Split(a + "/" + b) == [a] + Split(b)
  {
    var s := a + "/" + b;
    assert s[|a|] == '/';
    assert s[..|a|] == a;
    assert forall j :: 0 <= j < |a| ==> s[j] == a[j];
    var i := FirstSlash(s);
    assert s[..i + 1][|a|] == '/' ==> '/' in s[..i + 1];
    assert i == |a|;
    assert s[|a| + 1..] == b;
  }

  /** The pieces joined back with separators. */
  function JoinSlash(parts: seq<string>): string
    requires |parts| >= 1
    decreases |parts|
  {
    if |parts| == 1 then parts[0] else parts[0] + "/" + JoinSlash(parts[1..])
  }

  /**
   * Splitting loses nothing: the pieces joined with `/` give back the
   * string. With the pieces free of `/`, this fixes them uniquely.
   */
  lemma {:induction false} SplitJoin(s: string)
    ensures JoinSlash(Split(s)) == s
    decreases |s|
  {
    if '/' in s {
      var i := FirstSlash(s);
      var rest := Split(s[i + 1..]);
      SplitJoin(s[i + 1..]);
      assert ([s[..i]] + rest)[1..] == rest;
      assert s == s[..i] + "/" + s[i + 1..];
    }
  }

  // ---------------------------------------------------------- resolution

  /**
   * Resolution of relative segments against a canonical path: empty
   * segments and `.` are skipped, `..` drops the last segment and stays at
   * the root, any other segment is appended.
   */
  function Resolve(base: seq<string>, segs: seq<string>): (r: seq<string>)
    requires IsCanonical(base)
    requires forall i :: 0 <= i < |segs| ==> '/' !in segs[i]
    ensures IsCanonical(r)
    decreases |segs|
  {
    if segs == [] then base
    else
      var s := segs[0];
      var next := if s == "" || s == "." then base
                  else if s == ".." then (if base == [] then [] else base[..|base| - 1])
                  else base + [s];
      Resolve(next, segs[1..])
  }

  /** What one segment does: a name is appended, `""` and `.` are skipped, `..` drops the last segment but stays at the root. */
  lemma ResolveOne(base: seq<string>, s: string)
    requires IsCanonical(base) && '/' !in s
    ensures IsName(s) ==> Resolve(base, [s]) == base + [s]
    ensures s == "" || s == "." ==> Resolve(base, [s]) == base
    ensures s == ".." ==> Resolve(base, [s]) == if base == [] then [] else base[..|base| - 1]
  {
    assert [s][1..] == [];
  }

  /** Resolution proceeds segment by segment: resolving `a + b` is resolving `b` after `a`. */
  lemma {:induction false} ResolveConcat(base: seq<string>, a: seq<string>, b: seq<string>)
    requires IsCanonical(base)
    requires forall i :: 0 <= i < |a| ==> '/' !in a[i]
    requires forall i :: 0 <= i < |b| ==> '/' !in b[i]
    ensures Resolve(base, a + b) == Resolve(Resolve(base, a), b)
    decreases |a|
  {
    if a == [] {
      assert a + b == b;
    } else {
      var s := a[0];
      var next := if s == "" || s == "." then base
                  else if s == ".." then (if base == [] then [] else base[..|base| - 1])
                  else base + [s];
      assert (a + b)[0] == s && (a + b)[1..] == a[1..] + b;
      ResolveConcat(next, a[1..], b);
    }
  }

  /** The string of a canonical path: `/` for the root, else `/a/b/c`. */
  function Render(p: seq<string>): (s: string)
    ensures |s| >= 1 && s[0] == '/'
  {
    if p == [] then "/" else Slashed(p)
  }

  /** Each segment preceded by a separator. */
  function Slashed(p: seq<string>): (s: string)
    ensures p != [] ==> |s| >= 1 && s[0] == '/'
  {
    if p == [] then "" else Slashed(p[..|p| - 1]) + "/" + p[|p| - 1]
  }

  lemma {:induction false} SlashedAppend(p: seq<string>, q: seq<string>)
    ensures Slashed(p + q) == Slashed(p) + Slashed(q)
    decreases |q|
  {
    if q != [] {
      var last := q[|q| - 1];
      assert (p + q)[..|p + q| - 1] == p + q[..|q| - 1];
      SlashedAppend(p, q[..|q| - 1]);
    } else {
      assert p + q == p;
    }
  }

  predicate StartsWith(s: string, prefix: string) {
    |prefix| <= |s| && s[..|prefix|] == prefix
  }

  predicate IsPrefix<T(==)>(p: seq<T>, q: seq<T>) {
    |p| <= |q| && q[..|p|] == p
  }

  /** `path.resolve(path.join(dir, filePath))` for a canonical absolute `dir`. */
  function ResolvedPath(dir: seq<string>, filePath: string): seq<string>
    requires IsCanonical(dir)
  {
    Resolve(dir, Split(filePath))
  }

  // ---------------------------------------------------------- the guard

  /** The guard as written: a string-prefix test on the resolved path. */
  function SessionFilePathAsWritten(dir: seq<string>, filePath: string): (r: Option<seq<string>>)
    requires IsCanonical(dir)
    ensures r.Some? <==> StartsWith(Render(ResolvedPath(dir, filePath)), Render(dir))
    ensures r.Some? ==> r.value == ResolvedPath(dir, filePath)
  {
    var file := ResolvedPath(dir, filePath);
    if StartsWith(Render(file), Render(dir)) then Some(file) else None
  }

  /** The guard as intended: the resolved path is the session directory or lies beneath it. */
  function SessionFilePath(dir: seq<string>, filePath: string): (r: Option<seq<string>>)
    requires IsCanonical(dir)
    ensures r.Some? ==> IsPrefix(dir, r.value) && r.value == ResolvedPath(dir, filePath) && IsCanonical(r.value)
    ensures r.None? ==> !IsPrefix(dir, ResolvedPath(dir, filePath))
  {
    var file := ResolvedPath(dir, filePath);
    if IsPrefix(dir, file) then Some(file) else None
  }

  /** Every path the corrected guard accepts, the guard as written accepts too. */
  lemma CorrectedGuardIsStricter(dir: seq<string>, filePath: string)
    requires IsCanonical(dir)
    ensures SessionFilePath(dir, filePath).Some? ==> SessionFilePathAsWritten(dir, filePath).Some?
  {
    var file := ResolvedPath(dir, filePath);
    if IsPrefix(dir, file) && dir != [] {
      assert file == dir + file[|dir|..];
      SlashedAppend(dir, file[|dir|..]);
    }
  }

  /** Resolving segments with no `..` never leaves the base. */
  lemma {:induction false} ResolveWithoutParentStaysBelow(base: seq<string>, segs: seq<string>)
    requires IsCanonical(base)
    requires forall i :: 0 <= i < |segs| ==> '/' !in segs[i] && segs[i] != ".."
    ensures IsPrefix(base, Resolve(base, segs))
    decreases |segs|
  {
    if segs != [] {
      var s := segs[0];
      var next := if s == "" || s == "." then base else base + [s];
      ResolveWithoutParentStaysBelow(next, segs[1..]);
      assert next[..|base|] == base;
    }
  }

  /** A requested path with no `..` segment is always accepted. */
  lemma PathWithoutParentAccepted(dir: seq<string>, filePath: string)
    requires IsCanonical(dir)
    requires forall i :: 0 <= i < |Split(filePath)| ==> Split(filePath)[i] != ".."
    ensures SessionFilePath(dir, filePath) == Some(ResolvedPath(dir, filePath))
  {
    ResolveWithoutParentStaysBelow(dir, Split(filePath));
  }

  lemma SplitOfEscape(x: string, name: string)
    requires '/' !in x && '/' !in name
    ensures Split("../" + x + "/" + name) == ["..", x, name]
  {
    assert "../" + x + "/" + name == ".." + "/" + (x + "/" + name);
    SplitAtSlash("..", x + "/" + name);
    SplitAtSlash(x, name);
  }

  lemma ResolveOfEscape(parent: seq<string>, id: string, x: string, name: string)
    requires IsCanonical(parent) && IsName(id) && IsName(x) && IsName(name)
    ensures Resolve(parent + [id], ["..", x, name]) == parent + [x, name]
  {
    var segs := ["..", x, name];
    assert (parent + [id])[..|parent|] == parent;
    assert Resolve(parent + [id], segs) == Resolve(parent, segs[1..]);
    assert segs[1..][1..] == [name];
    assert Resolve(parent, segs[1..]) == Resolve(parent + [x], [name]);
    assert [name][1..] == [];
    assert Resolve(parent + [x], [name]) == Resolve(parent + [x] + [name], []);
    assert parent + [x] + [name] == parent + [x, name];
  }

  lemma SlashedOne(x: string)
    ensures Slashed([x]) == "/" + x
  {
    assert [x][..0] == [];
  }

  lemma SlashedTwo(x: string, y: string)
    ensures Slashed([x, y]) == "/" + x + "/" + y
  {
    assert [x, y][..1] == [x];
    SlashedOne(x);
  }

  lemma RenderOfEscape(parent: seq<string>, x: string, name: string)
    ensures Render(parent + [x, name]) == Slashed(parent) + ("/" + x + "/" + name)
  {
    assert parent + [x, name] != [];
    SlashedAppend(parent, [x, name]);
    SlashedTwo(x, name);
  }

  lemma RenderOfSession(parent: seq<string>, id: string)
    ensures Render(parent + [id]) == Slashed(parent) + ("/" + id)
  {
    assert parent + [id] != [];
    SlashedAppend(parent, [id]);
    SlashedOne(id);
  }

  /**
   * The guard as written lets a request escape into a sibling directory
   * whose name extends the session id: from session `id`, the path
   * `../<id><ext>/<name>` resolves outside the session directory, yet its
   * string starts with the session directory's string.
   */
  lemma SiblingDirectoryEscapes(parent: seq<string>, id: string, ext: string, name: string)
    requires IsCanonical(parent) && IsName(id) && IsName(id + ext) && IsName(name) && ext != ""
    ensures var dir := parent + [id];
      var filePath := "../" + (id + ext) + "/" + name;
      SessionFilePathAsWritten(dir, filePath) == Some(parent + [id + ext, name]) &&
      SessionFilePath(dir, filePath) == None
  {
    var dir := parent + [id];
    var file := parent + [id + ext, name];
    SplitOfEscape(id + ext, name);
    ResolveOfEscape(parent, id, id + ext, name);
    RenderOfEscape(parent, id + ext, name);
    RenderOfSession(parent, id);
    var r, d := Render(file), Render(dir);
    assert "/" + (id + ext) + "/" + name == ("/" + id) + (ext + "/" + name);
    assert r == d + (ext + "/" + name);
    assert r[..|d|] == d;
    assert file[..|dir|][|parent|] == id + ext;
    assert |id + ext| != |id|;
  }

  /** An instance: from session `abc` under `/sessions`, `../abcd/notes.txt` gets through. */
  lemma SiblingDirectoryEscapesExample()
    ensures SessionFilePathAsWritten(["sessions", "abc"], "../abcd/notes.txt") == Some(["sessions", "abcd", "notes.txt"])
    ensures SessionFilePath(["sessions", "abc"], "../abcd/notes.txt") == None
  {
    assert "abc" + "d" == "abcd";
    assert "../" + ("abc" + "d") + "/" + "notes.txt" == "../abcd/notes.txt";
    assert ["sessions"] + ["abc"] == ["sessions", "abc"];
    assert ["sessions"] + ["abcd", "notes.txt"] == ["sessions", "abcd", "notes.txt"];
    SiblingDirectoryEscapes(["sessions"], "abc", "d", "notes.txt");
  }
}
