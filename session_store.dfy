/**
 * The file store of an editing session (backend/editorApi.ts): read, write
 * at an offset and delete of files under the session directory, behind the
 * sandbox guard, together with the validation of a PUT request's query.
 * The store is a map from canonical paths to bytes plus the set of existing
 * directories; only the session directory's subtree is represented.
 */
module SessionStore {
  import opened Wrappers
  import opened JsText
  import opened Paths

  type Path = seq<string>
  type Bytes = seq<bv8>

  // ------------------------------------------------------ positional write

  function Zeros(n: nat): (z: Bytes)
    ensures |z| == n && forall i :: 0 <= i < n ==> z[i] == 0
  {
    seq(n, _ => 0)
  }

  /**
   * A stream opened at `start` over `base`: `base` padded with zero bytes
   * up to `start`, the payload written from `start` on, and the rest of
   * `base` kept after it. A stream that receives no bytes never writes, so
   * an empty payload leaves `base` as it is, however far `start` lies.
   */
  function WriteAt(base: Bytes, start: nat, payload: Bytes): (r: Bytes)
    ensures payload == [] ==> r == base
    ensures payload != [] ==> |r| == if start + |payload| > |base| then start + |payload| else |base|
    ensures payload != [] ==> forall i :: 0 <= i < |r| ==>
      r[i] == (if start <= i < start + |payload| then payload[i - start] else if i < |base| then base[i] else 0)
  {
    if payload == [] then base
    else
      var padded := if |base| < start then base + Zeros(start - |base|) else base;
      var end := start + |payload|;
      padded[..start] + payload + (if end < |padded| then padded[end..] else [])
  }

  /** Two chunks written one after the other are one write of both. */
  lemma WriteAtConsecutiveChunks(base: Bytes, start: nat, x: Bytes, y: Bytes)
    ensures WriteAt(WriteAt(base, start, x), start + |x|, y) == WriteAt(base, start, x + y)
  {
    if x == [] {
      assert x + y == y;
    } else if y == [] {
      assert x + y == x;
    } else {
      NonEmptyChunks(base, start, x, y);
    }
  }

  lemma NonEmptyChunks(base: Bytes, start: nat, x: Bytes, y: Bytes)
    requires x != [] && y != []
    ensures WriteAt(WriteAt(base, start, x), start + |x|, y) == WriteAt(base, start, x + y)
  {
    var w := WriteAt(base, start, x);
    var a, b := WriteAt(w, start + |x|, y), WriteAt(base, start, x + y);
    assert |a| == |b|;
    forall i | 0 <= i < |a|
      ensures a[i] == b[i]
    {
      if start <= i < start + |x| {
        assert (x + y)[i - start] == x[i - start];
      } else if start + |x| <= i < start + |x| + |y| {
        assert (x + y)[i - start] == y[i - start - |x|];
      }
    }
  }

  // ------------------------------------------------------- the PUT query

  datatype PutParams = PutParams(start: int, truncate: bool)

  /**
   * `parseInt(q) || 0` for `start` and `truncate`; the request is refused
   * when truncation is asked for at a non-zero offset, and only a parsed 1
   * asks for truncation.
   */
  function ParsePutQuery(startQ: Option<string>, truncateQ: Option<string>): (r: Option<PutParams>)
    ensures r.None? <==> ParseIntOrZero(truncateQ) == 1 && ParseIntOrZero(startQ) != 0
    ensures r.Some? ==> r.value.start == ParseIntOrZero(startQ)
    ensures r.Some? ==> (r.value.truncate <==> ParseIntOrZero(truncateQ) == 1)
  {
    var start := ParseIntOrZero(startQ);
    var truncate := ParseIntOrZero(truncateQ);
    if truncate == 1 && start != 0 then None else Some(PutParams(start, truncate == 1))
  }

  /** A query without `start` and `truncate` is a plain write at offset 0. */
  lemma MissingQueryIsPlainWrite()
    ensures ParsePutQuery(None, None) == Some(PutParams(0, false))
  {
    assert "undefined"[0] == 'u';
    assert TrimStart("undefined") == "undefined";
    assert DigitRun("undefined", 10) == 0;
  }

  /** The query check depends only on the two parsed values. */
  lemma ParsePutQueryOf(startQ: Option<string>, truncateQ: Option<string>, start: int, truncate: int)
    requires ParseIntOrZero(startQ) == start && ParseIntOrZero(truncateQ) == truncate
    ensures ParsePutQuery(startQ, truncateQ) ==
      if truncate == 1 && start != 0 then None else Some(PutParams(start, truncate == 1))
  {
  }

  /** Unless truncation is asked for, the query is accepted at the parsed offset. */
  lemma QueryWithoutTruncation(startQ: Option<string>, truncateQ: Option<string>, start: int, truncate: int)
    requires ParseIntOrZero(startQ) == start && ParseIntOrZero(truncateQ) == truncate && truncate != 1
    ensures ParsePutQuery(startQ, truncateQ) == Some(PutParams(start, false))
  {
  }

  lemma ParseIntOrZeroDecimal(n: nat)
    ensures ParseIntOrZero(Some(DecimalString(n))) == n
  {
    ParseIntDecimal(n);
  }

  lemma ParseIntOrZeroNegativeDecimal(n: nat)
    ensures ParseIntOrZero(Some("-" + DecimalString(n))) == 0 - n
  {
    ParseIntNegativeDecimal(n);
  }

  /** Decimal values of both parameters: refused exactly for truncate 1 at a non-zero offset. */
  lemma DecimalPutQuery(start: nat, truncate: nat)
    ensures ParsePutQuery(Some(DecimalString(start)), Some(DecimalString(truncate))) ==
      if truncate == 1 && start != 0 then None else Some(PutParams(start, truncate == 1))
  {
    ParseIntOrZeroDecimal(start);
    ParseIntOrZeroDecimal(truncate);
    ParsePutQueryOf(Some(DecimalString(start)), Some(DecimalString(truncate)), start, truncate);
  }

  /** A negative offset passes the query check unless truncation is asked for. */
  lemma NegativeStartPassesQuery(n: nat, truncate: nat)
    requires n > 0 && truncate != 1
    ensures ParsePutQuery(Some("-" + DecimalString(n)), Some(DecimalString(truncate))) == Some(PutParams(0 - n, false))
  {
    ParseIntOrZeroNegativeDecimal(n);
    ParseIntOrZeroDecimal(truncate);
    QueryWithoutTruncation(Some("-" + DecimalString(n)), Some(DecimalString(truncate)), 0 - n, truncate);
  }

  // ----------------------------------------------------------- the store

  datatype Tree = Tree(files: map<Path, Bytes>, dirs: set<Path>)

  /**
   * Every entry lies in the session directory, which is a directory; every
   * directory but it and every file has its parent among the directories;
   * nothing is both a file and a directory.
   */
  ghost predicate WellFormed(dir: Path, st: Tree) {
    IsCanonical(dir) && dir in st.dirs &&
    (forall q :: q in st.dirs ==> IsPrefix(dir, q) && (q != dir ==> q[..|q| - 1] in st.dirs)) &&
    (forall q :: q in st.files ==> IsPrefix(dir, q) && q != dir && q[..|q| - 1] in st.dirs && q !in st.dirs)
  }

  /** The directories `mkdir -p` ensures for the parent of `p`: its ancestors from `dir` on. */
  function MissingDirs(dir: Path, p: Path): (m: set<Path>)
    requires IsPrefix(dir, p)
    ensures forall q :: q in m ==> IsPrefix(dir, q) && |q| < |p| && q == p[..|q|]
  {
    set k | |dir| <= k < |p| :: p[..k]
  }

  /** Some ancestor of `p` strictly below `dir` is a file. */
  predicate BlockedByFile(dir: Path, st: Tree, p: Path) {
    exists k :: |dir| < k < |p| && p[..k] in st.files
  }

  datatype PutResult = PutForbidden | PutFailed | Written
  datatype GetResult = GetForbidden | NotFound | Content(bytes: Bytes) | GetFailed
  datatype DeleteResult = DeleteForbidden | DeleteNotFound | Deleted | DeleteFailed

  /**
   * `putFile`: the guard; `mkdir -p` of the parent, which fails at a file;
   * a missing file forces truncation; opening the stream fails for a
   * negative offset or a directory; otherwise the bytes are written at the
   * offset.
   */
  function PutSpec(dir: Path, st: Tree, filePath: string, start: int, truncate: bool, payload: Bytes): (PutResult, Tree)
    requires IsCanonical(dir)
  {
    match SessionFilePath(dir, filePath)
    case None => (PutForbidden, st)
    case Some(p) =>
      if BlockedByFile(dir, st, p) then (PutFailed, st)
      else
        var dirs := st.dirs + MissingDirs(dir, p);
        if p in st.dirs || start < 0 then (PutFailed, Tree(st.files, dirs))
        else
          var base := if truncate || p !in st.files then [] else st.files[p];
          (Written, Tree(st.files[p := WriteAt(base, start, payload)], dirs))
  }

  /** `getFile`: a file's content; a directory cannot be streamed. */
  function GetSpec(dir: Path, st: Tree, filePath: string): GetResult
    requires IsCanonical(dir)
  {
    match SessionFilePath(dir, filePath)
    case None => GetForbidden
    case Some(p) =>
      if p in st.files then Content(st.files[p])
      else if p in st.dirs then GetFailed
      else NotFound
  }

  /** `deleteFile`: removes a file; unlinking a directory fails. */
  function DeleteSpec(dir: Path, st: Tree, filePath: string): (DeleteResult, Tree)
    requires IsCanonical(dir)
  {
    match SessionFilePath(dir, filePath)
    case None => (DeleteForbidden, st)
    case Some(p) =>
      if p in st.files then (Deleted, Tree(st.files - {p}, st.dirs))
      else if p in st.dirs then (DeleteFailed, st)
      else (DeleteNotFound, st)
  }

  // ------------------------------------------------- properties of a store

  /** In a well-formed store, every ancestor of a directory down to the session directory is a directory. */
  lemma {:induction false} AncestorsOfDirectoryAreDirectories(dir: Path, st: Tree, q: Path, k: nat)
    requires WellFormed(dir, st) && q in st.dirs && |dir| <= k <= |q|
    ensures q[..k] in st.dirs
    decreases |q| - k
  {
    if k < |q| {
      assert q != dir;
      var parent := q[..|q| - 1];
      AncestorsOfDirectoryAreDirectories(dir, st, parent, k);
      assert parent[..k] == q[..k];
    } else {
      assert q[..k] == q;
    }
  }

  /** When the parent of the target is already a directory, `mkdir -p` adds nothing. */
  lemma MissingDirsOfExistingParent(dir: Path, st: Tree, p: Path)
    requires WellFormed(dir, st) && IsPrefix(dir, p) && p != dir && p[..|p| - 1] in st.dirs
    ensures MissingDirs(dir, p) <= st.dirs
    ensures !BlockedByFile(dir, st, p)
  {
    var parent := p[..|p| - 1];
    forall k | |dir| <= k < |p|
      ensures p[..k] in st.dirs
    {
      AncestorsOfDirectoryAreDirectories(dir, st, parent, k);
      assert parent[..k] == p[..k];
    }
  }

  /** Adding the directories `mkdir -p` makes keeps a store well formed when no ancestor is a file. */
  lemma AddMissingDirsKeepsWellFormed(dir: Path, st: Tree, p: Path)
    requires WellFormed(dir, st) && IsPrefix(dir, p) && !BlockedByFile(dir, st, p)
    ensures WellFormed(dir, Tree(st.files, st.dirs + MissingDirs(dir, p)))
  {
    var m := MissingDirs(dir, p);
    forall q | q in m && q != dir
      ensures q[..|q| - 1] in m
    {
      assert q[..|q| - 1] == p[..|q| - 1];
    }
    forall q | q in m
      ensures q !in st.files
    {
      if |q| > |dir| {
        assert p[..|q|] !in st.files;
      } else {
        assert q == dir;
      }
    }
  }

  /** Every operation keeps a store well formed; in particular, nothing is ever written outside the session directory. */
  lemma PutKeepsStoreWellFormed(dir: Path, st: Tree, filePath: string, start: int, truncate: bool, payload: Bytes)
    requires WellFormed(dir, st)
    ensures WellFormed(dir, PutSpec(dir, st, filePath, start, truncate, payload).1)
  {
    var target := SessionFilePath(dir, filePath);
    if target.Some? && !BlockedByFile(dir, st, target.value) {
      var p := target.value;
      AddMissingDirsKeepsWellFormed(dir, st, p);
      if p !in st.dirs && start >= 0 {
        var m := MissingDirs(dir, p);
        assert p != dir;
        assert p[..|p| - 1] in m;
        assert p !in m;
      }
    }
  }

  lemma DeleteKeepsStoreWellFormed(dir: Path, st: Tree, filePath: string)
    requires WellFormed(dir, st)
    ensures WellFormed(dir, DeleteSpec(dir, st, filePath).1)
  {
  }

  /**
   * A path the guard refuses is refused by read, write and delete alike,
   * and nothing changes.
   */
  lemma ForbiddenBeforeAnyAccess(dir: Path, st: Tree, filePath: string, start: int, truncate: bool, payload: Bytes)
    requires IsCanonical(dir)
    ensures SessionFilePath(dir, filePath).None? <==> GetSpec(dir, st, filePath) == GetForbidden
    ensures SessionFilePath(dir, filePath).None? <==> PutSpec(dir, st, filePath, start, truncate, payload) == (PutForbidden, st)
    ensures SessionFilePath(dir, filePath).None? <==> DeleteSpec(dir, st, filePath) == (DeleteForbidden, st)
  {
  }

  /**
   * A write succeeds exactly when the guard accepts, no ancestor is a file,
   * the target is not a directory and the offset is not negative. Only the
   * target's content changes; the directories `mkdir -p` makes for it exist
   * afterwards even when the write itself fails.
   */
  lemma PutChangesOnlyTarget(dir: Path, st: Tree, filePath: string, start: int, truncate: bool, payload: Bytes)
    requires WellFormed(dir, st)
    ensures var (r, st') := PutSpec(dir, st, filePath, start, truncate, payload);
      var target := SessionFilePath(dir, filePath);
      (r == Written <==>
        target.Some? && !BlockedByFile(dir, st, target.value) && target.value !in st.dirs && start >= 0) &&
      (r != Written ==> st'.files == st.files) &&
      (forall q :: q in st'.files && (target.None? || q != target.value) ==> q in st.files && st'.files[q] == st.files[q]) &&
      (forall q :: q in st.files ==> q in st'.files) &&
      st.dirs <= st'.dirs &&
      (r != PutForbidden && target.Some? && !BlockedByFile(dir, st, target.value) ==>
        forall k :: |dir| <= k < |target.value| ==> target.value[..k] in st'.dirs)
  {
  }

  /**
   * What a successful write leaves: the old content when not truncating
   * and the file existed, else nothing, padded with zeros to the offset,
   * then the payload, then whatever of the old content lay beyond it. A
   * read right after returns exactly that.
   */
  lemma PutThenGet(dir: Path, st: Tree, filePath: string, start: int, truncate: bool, payload: Bytes)
    requires WellFormed(dir, st)
    requires PutSpec(dir, st, filePath, start, truncate, payload).0 == Written
    ensures var p := SessionFilePath(dir, filePath).value;
      var base := if truncate || p !in st.files then [] else st.files[p];
      var st' := PutSpec(dir, st, filePath, start, truncate, payload).1;
      GetSpec(dir, st', filePath) == Content(WriteAt(base, start, payload))
  {
  }

  /**
   * A write to a missing file truncates whatever the request asked: zeros
   * up to the offset, then the payload; with no payload the file is created empty.
   */
  lemma PutToMissingFileTruncates(dir: Path, st: Tree, filePath: string, start: nat, payload: Bytes)
    requires WellFormed(dir, st)
    requires SessionFilePath(dir, filePath).Some? && SessionFilePath(dir, filePath).value !in st.files
    requires PutSpec(dir, st, filePath, start, false, payload).0 == Written
    ensures var p := SessionFilePath(dir, filePath).value;
      PutSpec(dir, st, filePath, start, false, payload) == PutSpec(dir, st, filePath, start, true, payload) &&
      PutSpec(dir, st, filePath, start, false, payload).1.files[p] == if payload == [] then [] else Zeros(start) + payload
  {
    var p := SessionFilePath(dir, filePath).value;
    var w := WriteAt([], start, payload);
    WriteAtEmpty(start, payload);
    var after := Tree(st.files[p := w], st.dirs + MissingDirs(dir, p));
    assert PutSpec(dir, st, filePath, start, false, payload) == (Written, after);
    assert PutSpec(dir, st, filePath, start, true, payload) == (Written, after);
  }

  /** A request with no body writes nothing: the file keeps its content, or is created empty, whatever the offset. */
  lemma EmptyPutKeepsContent(dir: Path, st: Tree, filePath: string, start: int, truncate: bool)
    requires WellFormed(dir, st)
    requires PutSpec(dir, st, filePath, start, truncate, []).0 == Written
    ensures var p := SessionFilePath(dir, filePath).value;
      PutSpec(dir, st, filePath, start, truncate, []).1.files[p] ==
        if truncate || p !in st.files then [] else st.files[p]
  {
  }

  /** A write into nothing is zeros up to the offset, then the payload; nothing at all when there is no payload. */
  lemma WriteAtEmpty(start: nat, payload: Bytes)
    ensures WriteAt([], start, payload) == if payload == [] then [] else Zeros(start) + payload
  {
    if payload == [] {
      return;
    }
    var w, z := WriteAt([], start, payload), Zeros(start) + payload;
    assert |w| == |z|;
    forall i | 0 <= i < |w|
      ensures w[i] == z[i]
    {
      if i < start {
        assert z[i] == Zeros(start)[i];
      }
    }
  }

  /**
   * Deleting a file removes exactly that file; a missing target is
   * reported and nothing changes; a read afterwards finds nothing.
   */
  lemma DeleteRemovesOnlyThatFile(dir: Path, st: Tree, filePath: string)
    requires WellFormed(dir, st)
    ensures var (r, st') := DeleteSpec(dir, st, filePath);
      var target := SessionFilePath(dir, filePath);
      (r == Deleted <==> target.Some? && target.value in st.files) &&
      (r == Deleted ==> st'.files == st.files - {target.value} && st'.dirs == st.dirs &&
                         GetSpec(dir, st', filePath) == NotFound) &&
      (r == DeleteNotFound <==> target.Some? && target.value !in st.files && target.value !in st.dirs) &&
      (r != Deleted ==> st' == st)
  {
  }

  // ---------------------------------------------------------- the class

  datatype PutStatus = BadRequest | Handled(result: PutResult)

  /** The token the API's middleware passes to the check: a constant. */
  const MiddlewareToken := "testtoken"

  /** `checkToken`: the session is not consulted. */
  predicate CheckToken(token: string, sessionId: string) {
    token == "testtoken"
  }

  /** The check accepts exactly the fixed test token, whatever the session. */
  lemma CheckTokenAcceptsOnlyTestToken(token: string, sessionId: string, otherSession: string)
    ensures CheckToken(token, sessionId) <==> token == MiddlewareToken
    ensures CheckToken(token, sessionId) == CheckToken(token, otherSession)
  {
  }

  /** Since the middleware's token is a constant, no request is ever refused with 401. */
  lemma TokenCheckNeverRefuses(sessionId: string)
    ensures CheckToken(MiddlewareToken, sessionId)
  {
  }

  class SessionFiles {
    const dir: Path
    var files: map<Path, Bytes>
    var dirs: set<Path>

    function State(): Tree
      reads this
    {
      Tree(files, dirs)
    }

    ghost predicate Valid()
      reads this
    {
      WellFormed(dir, State())
    }

    /** A fresh, empty session directory. */
    constructor (dir: Path)
      requires IsCanonical(dir)
      ensures this.dir == dir && files == map[] && dirs == {dir}
      ensures Valid()
    {
      this.dir := dir;
      files := map[];
      dirs := {dir};
    }

    /** `getFile`. */
    method Get(filePath: string) returns (r: GetResult)
      requires Valid()
      ensures r == GetSpec(dir, State(), filePath)
    {
      var target := SessionFilePath(dir, filePath);
      if target.None? {
        return GetForbidden;
      }
      var file := target.value;
      if file !in files && file !in dirs {
        return NotFound;
      }
      if file in dirs {
        return GetFailed;
      }
      return Content(files[file]);
    }

    /** `putFile`. */
    method Put(filePath: string, start: int, truncate: bool, payload: Bytes) returns (r: PutResult)
      requires Valid()
      modifies this
      ensures Valid()
      ensures (r, State()) == PutSpec(dir, old(State()), filePath, start, truncate, payload)
    {
      PutKeepsStoreWellFormed(dir, State(), filePath, start, truncate, payload);
      var target := SessionFilePath(dir, filePath);
      if target.None? {
        return PutForbidden;
      }
      var file := target.value;
      if file != dir {
        var parent := file[..|file| - 1];
        if parent !in dirs && parent !in files {
          if BlockedByFile(dir, State(), file) {
            return PutFailed;
          }
          dirs := dirs + MissingDirs(dir, file);
        } else if parent in dirs {
          MissingDirsOfExistingParent(dir, State(), file);
          assert dirs + MissingDirs(dir, file) == dirs;
        } else {
          assert file[..|parent|] in files;
          assert BlockedByFile(dir, State(), file);
        }
      } else {
        assert MissingDirs(dir, file) == {};
        assert dirs + MissingDirs(dir, file) == dirs;
      }
      var truncating := truncate;
      if file !in files && file !in dirs {
        truncating := true;
      }
      if start < 0 || file in dirs || BlockedByFile(dir, State(), file) {
        return PutFailed;
      }
      var base := if truncating then [] else files[file];
      files := files[file := WriteAt(base, start, payload)];
      return Written;
    }

    /** `deleteFile`. */
    method Delete(filePath: string) returns (r: DeleteResult)
      requires Valid()
      modifies this
      ensures Valid()
      ensures (r, State()) == DeleteSpec(dir, old(State()), filePath)
    {
      DeleteKeepsStoreWellFormed(dir, State(), filePath);
      var target := SessionFilePath(dir, filePath);
      if target.None? {
        return DeleteForbidden;
      }
      var file := target.value;
      if file !in files && file !in dirs {
        return DeleteNotFound;
      }
      if file in dirs {
        return DeleteFailed;
      }
      files := files - {file};
      return Deleted;
    }

    /** The PUT route: the query is checked before the store is touched. */
    method HandlePut(startQ: Option<string>, truncateQ: Option<string>, filePath: string, payload: Bytes)
      returns (status: PutStatus)
      requires Valid()
      modifies this
      ensures Valid()
      ensures ParsePutQuery(startQ, truncateQ).None? ==> status == BadRequest && State() == old(State())
      ensures ParsePutQuery(startQ, truncateQ).Some? ==>
        var q := ParsePutQuery(startQ, truncateQ).value;
        status.Handled? && (status.result, State()) == PutSpec(dir, old(State()), filePath, q.start, q.truncate, payload)
    {
      var start := ParseIntOrZero(startQ);
      var truncate := ParseIntOrZero(truncateQ);
      if truncate == 1 && start != 0 {
        return BadRequest;
      }
      var r := Put(filePath, start, truncate == 1, payload);
      return Handled(r);
    }
  }
}
