// The session file listing of the editor API: a depth-first walk of the
// session directory that yields the path of every file relative to it,
// directories themselves left out, in the order the directory reads return.

module Listing {
  import Naming

  /** What one directory read yields: a file, or a directory with its own contents. */
  datatype Entry = File(name: string) | Directory(name: string, children: seq<Entry>)

  /** A name a directory read can return: non-empty and without a slash. */
  predicate IsEntryName(n: string) {
    n != [] && forall i :: 0 <= i < |n| ==> n[i] != '/'
  }

  predicate ValidNames(es: seq<Entry>)
    decreases es
  {
    forall i :: 0 <= i < |es| ==>
      IsEntryName(es[i].name) && (es[i].Directory? ==> ValidNames(es[i].children))
  }

  /** `isFileExcludedFromSync`: excludes nothing. */
  predicate IsExcludedFromSync(name: string) {
    false
  }

  /** `path.join` of a relative prefix and one entry name. */
  function Join(prefix: string, name: string): string {
    if prefix == [] then name else prefix + "/" + name
  }

  /** The listing `recursiveDirList` produces for the entries of one directory under `prefix`. */
  function DirList(es: seq<Entry>, prefix: string): seq<string>
    decreases es
  {
    if es == [] then []
    else
      var e := es[|es| - 1];
      DirList(es[..|es| - 1], prefix) +
      if IsExcludedFromSync(e.name) then []
      else match e
        case File(n) => [Naming.StripLeadingSlash(Join(prefix, n))]
        case Directory(n, cs) => DirList(cs, Join(prefix, n))
  }

  /** `getList`: the listing of the whole session directory. */
  function List(root: seq<Entry>): seq<string> {
    DirList(root, "")
  }

  /** `recursiveDirList`: one directory read walked with a loop, subdirectories by recursion. */
  method RecursiveDirList(es: seq<Entry>, prefix: string) returns (list: seq<string>)
    ensures list == DirList(es, prefix)
    decreases es
  {
    list := [];
    for i := 0 to |es|
      invariant list == DirList(es[..i], prefix)
    {
      var e := es[i];
      assert es[..i + 1][..i] == es[..i];
      if IsExcludedFromSync(e.name) {
      } else if e.File? {
        list := list + [Naming.StripLeadingSlash(Join(prefix, e.name))];
      } else {
        var sub := RecursiveDirList(e.children, Join(prefix, e.name));
        list := list + sub;
      }
    }
    assert es[..|es|] == es;
  }

  // ------------------------------------------------ reference definition

  /** Every path in `ps`, one level deeper under directory `n`. */
  function Under(n: string, ps: seq<seq<string>>): (r: seq<seq<string>>)
    ensures |r| == |ps| && forall i :: 0 <= i < |r| ==> r[i] == [n] + ps[i]
  {
    seq(|ps|, i requires 0 <= i < |ps| => [n] + ps[i])
  }

  /** The segments of every file below the entries, in depth-first order. */
  function FilePaths(es: seq<Entry>): seq<seq<string>>
    decreases es
  {
    if es == [] then []
    else
      var e := es[|es| - 1];
      FilePaths(es[..|es| - 1]) +
      match e
        case File(n) => [[n]]
        case Directory(n, cs) => Under(n, FilePaths(cs))
  }

  /** A file's segments joined with slashes. */
  function JoinSegments(segs: seq<string>): string
    decreases |segs|
  {
    if segs == [] then "" else if |segs| == 1 then segs[0] else segs[0] + "/" + JoinSegments(segs[1..])
  }

  /** Every path of `ps` joined and placed under `prefix`. */
  function Rendered(prefix: string, ps: seq<seq<string>>): (r: seq<string>)
    ensures |r| == |ps| && forall i :: 0 <= i < |r| ==> r[i] == Join(prefix, JoinSegments(ps[i]))
  {
    seq(|ps|, i requires 0 <= i < |ps| => Join(prefix, JoinSegments(ps[i])))
  }

  lemma {:induction false} FilePathsNonEmpty(es: seq<Entry>)
    ensures forall i :: 0 <= i < |FilePaths(es)| ==> FilePaths(es)[i] != []
    decreases es
  {
    if es != [] {
      FilePathsNonEmpty(es[..|es| - 1]);
      if es[|es| - 1].Directory? {
        FilePathsNonEmpty(es[|es| - 1].children);
      }
    }
  }

  lemma JoinUnderDirectory(prefix: string, n: string, segs: seq<string>)
    requires n != [] && segs != []
    ensures Join(Join(prefix, n), JoinSegments(segs)) == Join(prefix, JoinSegments([n] + segs))
  {
    var rest := [n] + segs;
    assert rest[1..] == segs;
    if prefix != [] {
      assert (prefix + "/" + n) + "/" + JoinSegments(segs) == prefix + "/" + (n + "/" + JoinSegments(segs));
    }
  }

  lemma RenderedUnder(prefix: string, n: string, ps: seq<seq<string>>)
    requires n != [] && forall i :: 0 <= i < |ps| ==> ps[i] != []
    ensures Rendered(Join(prefix, n), ps) == Rendered(prefix, Under(n, ps))
  {
    forall i | 0 <= i < |ps|
      ensures Rendered(Join(prefix, n), ps)[i] == Rendered(prefix, Under(n, ps))[i]
    {
      JoinUnderDirectory(prefix, n, ps[i]);
    }
  }

  /** The listing one entry contributes. */
  function EntryList(e: Entry, prefix: string, sub: seq<string>): seq<string> {
    if IsExcludedFromSync(e.name) then []
    else match e
      case File(n) => [Naming.StripLeadingSlash(Join(prefix, n))]
      case Directory(_, _) => sub
  }

  /** The file paths one entry contributes. */
  function EntryPaths(e: Entry, sub: seq<seq<string>>): seq<seq<string>> {
    match e
      case File(n) => [[n]]
      case Directory(n, _) => Under(n, sub)
  }

  lemma DirListLast(es: seq<Entry>, prefix: string)
    requires es != []
    ensures var e := es[|es| - 1];
      DirList(es, prefix) == DirList(es[..|es| - 1], prefix) +
        EntryList(e, prefix, if e.Directory? then DirList(e.children, Join(prefix, e.name)) else [])
    ensures var e := es[|es| - 1];
      FilePaths(es) == FilePaths(es[..|es| - 1]) + EntryPaths(e, if e.Directory? then FilePaths(e.children) else [])
  {
  }

  lemma EntryListRendered(e: Entry, prefix: string, sub: seq<string>, subPaths: seq<seq<string>>)
    requires IsEntryName(e.name)
    requires prefix == [] || prefix[0] != '/'
    requires e.Directory? ==> sub == Rendered(Join(prefix, e.name), subPaths)
    requires forall i :: 0 <= i < |subPaths| ==> subPaths[i] != []
    ensures EntryList(e, prefix, sub) == Rendered(prefix, EntryPaths(e, subPaths))
  {
    assert Join(prefix, e.name)[0] == (if prefix == [] then e.name[0] else prefix[0]);
    match e {
      case File(n) =>
        assert JoinSegments([n]) == n;
      case Directory(n, _) =>
        RenderedUnder(prefix, n, subPaths);
    }
  }

  lemma ValidNamesInit(es: seq<Entry>)
    requires ValidNames(es) && es != []
    ensures ValidNames(es[..|es| - 1])
    ensures IsEntryName(es[|es| - 1].name)
    ensures es[|es| - 1].Directory? ==> ValidNames(es[|es| - 1].children)
  {
    var init := es[..|es| - 1];
    forall i | 0 <= i < |init|
      ensures IsEntryName(init[i].name) && (init[i].Directory? ==> ValidNames(init[i].children))
    {
      assert init[i] == es[i];
    }
  }

  lemma RenderedAppend(prefix: string, a: seq<seq<string>>, b: seq<seq<string>>)
    ensures Rendered(prefix, a + b) == Rendered(prefix, a) + Rendered(prefix, b)
  {
  }

  /**
   * The listing under `prefix` is exactly every file's segments joined with
   * slashes and placed under `prefix`, in depth-first order: the leading
   * slash the source strips never occurs.
   */
  lemma {:induction false} DirListIsFilePaths(es: seq<Entry>, prefix: string)
    requires ValidNames(es)
    requires prefix == [] || prefix[0] != '/'
    ensures DirList(es, prefix) == Rendered(prefix, FilePaths(es))
    decreases es
  {
    if es != [] {
      var init := es[..|es| - 1];
      var e := es[|es| - 1];
      ValidNamesInit(es);
      DirListLast(es, prefix);
      DirListIsFilePaths(init, prefix);
      var sub: seq<string> := [];
      var subPaths: seq<seq<string>> := [];
      if e.Directory? {
        assert Join(prefix, e.name)[0] == (if prefix == [] then e.name[0] else prefix[0]);
        DirListIsFilePaths(e.children, Join(prefix, e.name));
        FilePathsNonEmpty(e.children);
        sub := DirList(e.children, Join(prefix, e.name));
        subPaths := FilePaths(e.children);
      }
      EntryListRendered(e, prefix, sub, subPaths);
      RenderedAppend(prefix, FilePaths(init), EntryPaths(e, subPaths));
    }
  }

  /** `getList` names every file of the session, by its path relative to the session directory. */
  lemma ListIsEveryFile(root: seq<Entry>)
    requires ValidNames(root)
    ensures |List(root)| == |FilePaths(root)|
    ensures forall i :: 0 <= i < |List(root)| ==> List(root)[i] == JoinSegments(FilePaths(root)[i])
  {
    DirListIsFilePaths(root, "");
  }

  /** A worked listing: two files at the top, one in a subdirectory, the directory itself absent. */
  lemma ListExample()
    ensures List([File("a.txt"), Directory("src", [File("main.c")]), File("b")]) == ["a.txt", "src/main.c", "b"]
  {
    var root := [File("a.txt"), Directory("src", [File("main.c")]), File("b")];
    assert [File("a.txt")][..0] == [];
    assert DirList([File("a.txt")], "") == ["a.txt"];
    assert [File("main.c")][..0] == [];
    assert Join("src", "main.c") == "src/main.c";
    assert DirList([File("main.c")], "src") == ["src/main.c"];
    assert root[..2] == [File("a.txt"), Directory("src", [File("main.c")])];
    assert root[..2][..1] == [File("a.txt")];
    assert DirList(root[..2], "") == ["a.txt", "src/main.c"];
  }
}
