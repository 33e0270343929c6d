/**
 * The divergence analyser of `getHistory` (backend/edition.ts): two scans
 * over newest-first commit logs that count the commits a branch has "in
 * addition" and flag, on each side, the first entry whose hash the other
 * log also holds. The scans stop at the first match; they approximate a
 * merge base and are modelled as written.
 */
module Divergence {

  /** One line of `git log`; `master` is the flag the scans set in place. */
  datatype HistoryEntry = HistoryEntry(hash: string, date: string, message: string, master: bool)

  function Hashes(h: seq<HistoryEntry>): (r: seq<string>)
    ensures |r| == |h| && forall i :: 0 <= i < |h| ==> r[i] == h[i].hash
  {
    seq(|h|, i requires 0 <= i < |h| => h[i].hash)
  }

  /**
   * The count a scan of `side` against `other` produces: the number of
   * leading entries of `side` whose hash is absent from `other`.
   */
  function Additional(side: seq<string>, other: seq<string>): (n: nat)
    ensures n <= |side|
    ensures forall i :: 0 <= i < n ==> side[i] !in other
    ensures n < |side| ==> side[n] in other
  {
    if side == [] then 0
    else if side[0] in other then 0
    else 1 + Additional(side[1..], other)
  }

  /** The entry at `k`, if there is one, flagged as shared. */
  function MarkShared(h: seq<HistoryEntry>, k: nat): (r: seq<HistoryEntry>)
    ensures |r| == |h| && Hashes(r) == Hashes(h)
    ensures forall i :: 0 <= i < |h| ==> r[i] == (if i == k then h[i].(master := true) else h[i])
  {
    if k < |h| then h[k := h[k].(master := true)] else h
  }

  /** A shared entry at `j` bounds the count from above. */
  lemma {:induction false} AdditionalAtMost(side: seq<string>, other: seq<string>, j: nat)
    requires j < |side| && side[j] in other
    ensures Additional(side, other) <= j
  {
    if side[0] !in other && j > 0 {
      AdditionalAtMost(side[1..], other, j - 1);
    }
  }

  /** The count is the only index with the two properties of `Additional`. */
  lemma AdditionalIsUnique(side: seq<string>, other: seq<string>, k: nat)
    requires k <= |side|
    requires forall i :: 0 <= i < k ==> side[i] !in other
    requires k < |side| ==> side[k] in other
    ensures k == Additional(side, other)
  {
    if k < |side| {
      AdditionalAtMost(side, other, k);
    }
  }

  /**
   * The inner `.every` of both scans: is `hash` anywhere in `history`?
   * It stops at the first match.
   */
  method ContainsHash(history: array<HistoryEntry>, hash: string) returns (found: bool)
    ensures found <==> hash in Hashes(history[..])
  {
    var j := 0;
    while j < history.Length
      invariant 0 <= j <= history.Length
      invariant forall i :: 0 <= i < j ==> history[i].hash != hash
    {
      if history[j].hash == hash {
        assert Hashes(history[..])[j] == hash;
        return true;
      }
      j := j + 1;
    }
    return false;
  }

  /**
   * The editor scan: counts editor entries until the first one whose hash
   * is in the trunk log, and flags that entry.
   */
  method ScanEditor(editor: array<HistoryEntry>, trunk: array<HistoryEntry>) returns (editorAdditional: nat)
    requires editor != trunk
    modifies editor
    ensures editorAdditional == Additional(Hashes(old(editor[..])), Hashes(trunk[..]))
    ensures editor[..] == MarkShared(old(editor[..]), editorAdditional)
  {
    ghost var side, other := Hashes(editor[..]), Hashes(trunk[..]);
    editorAdditional := 0;
    while editorAdditional < editor.Length
      invariant editorAdditional <= editor.Length
      invariant editor[..] == old(editor[..])
      invariant forall i :: 0 <= i < editorAdditional ==> side[i] !in other
    {
      var found := ContainsHash(trunk, editor[editorAdditional].hash);
      if found {
        AdditionalIsUnique(side, other, editorAdditional);
        editor[editorAdditional] := editor[editorAdditional].(master := true);
        return;
      }
      editorAdditional := editorAdditional + 1;
    }
    AdditionalIsUnique(side, other, editorAdditional);
  }

  /**
   * The trunk scan, the mirror image: counts trunk entries until the first
   * one whose hash is in the editor log, and flags that trunk entry.
   */
  method ScanTrunk(editor: array<HistoryEntry>, trunk: array<HistoryEntry>) returns (masterAdditional: nat)
    requires editor != trunk
    modifies trunk
    ensures masterAdditional == Additional(Hashes(old(trunk[..])), Hashes(editor[..]))
    ensures trunk[..] == MarkShared(old(trunk[..]), masterAdditional)
  {
    ghost var side, other := Hashes(trunk[..]), Hashes(editor[..]);
    masterAdditional := 0;
    while masterAdditional < trunk.Length
      invariant masterAdditional <= trunk.Length
      invariant trunk[..] == old(trunk[..])
      invariant forall i :: 0 <= i < masterAdditional ==> side[i] !in other
    {
      var found := ContainsHash(editor, trunk[masterAdditional].hash);
      if found {
        AdditionalIsUnique(side, other, masterAdditional);
        trunk[masterAdditional] := trunk[masterAdditional].(master := true);
        return;
      }
      masterAdditional := masterAdditional + 1;
    }
    AdditionalIsUnique(side, other, masterAdditional);
  }

  /**
   * `getHistory` once both logs are read: the editor scan, then the trunk
   * scan. Flagging never changes a hash, so the second scan sees the hashes
   * the first one saw.
   */
  method GetHistory(editor: array<HistoryEntry>, trunk: array<HistoryEntry>)
    returns (editorAdditional: nat, masterAdditional: nat)
    requires editor != trunk
    modifies editor, trunk
    ensures editorAdditional == Additional(Hashes(old(editor[..])), Hashes(old(trunk[..])))
    ensures masterAdditional == Additional(Hashes(old(trunk[..])), Hashes(old(editor[..])))
    ensures editor[..] == MarkShared(old(editor[..]), editorAdditional)
    ensures trunk[..] == MarkShared(old(trunk[..]), masterAdditional)
  {
    editorAdditional := ScanEditor(editor, trunk);
    masterAdditional := ScanTrunk(editor, trunk);
  }

  // ----------------------------------------------------------- properties

  /** One side finds a shared entry exactly when the other side does. */
  lemma SharedFoundOnBothSides(editor: seq<string>, trunk: seq<string>)
    ensures Additional(editor, trunk) < |editor| <==> Additional(trunk, editor) < |trunk|
  {
    var e, m := Additional(editor, trunk), Additional(trunk, editor);
    if e < |editor| {
      var j :| 0 <= j < |trunk| && trunk[j] == editor[e];
      AdditionalAtMost(trunk, editor, j);
    }
    if m < |trunk| {
      var j :| 0 <= j < |editor| && editor[j] == trunk[m];
      AdditionalAtMost(editor, trunk, j);
    }
  }

  /** With no hash in common, every commit of both logs counts as additional. */
  lemma {:induction false} DisjointHistories(editor: seq<string>, trunk: seq<string>)
    requires forall i :: 0 <= i < |editor| ==> editor[i] !in trunk
    ensures Additional(editor, trunk) == |editor|
    ensures Additional(trunk, editor) == |trunk|
  {
    SharedFoundOnBothSides(editor, trunk);
  }

  /**
   * A linear history: the editor log is the trunk log with newer commits on
   * top. The editor is ahead by exactly those commits and the trunk by none.
   */
  lemma {:induction false} LinearHistoryAhead(newer: seq<string>, trunk: seq<string>)
    requires trunk != []
    requires forall i :: 0 <= i < |newer| ==> newer[i] !in trunk
    ensures Additional(newer + trunk, trunk) == |newer|
    ensures Additional(trunk, newer + trunk) == 0
  {
    var editor := newer + trunk;
    assert editor[|newer|] == trunk[0];
    AdditionalIsUnique(editor, trunk, |newer|);
    assert trunk[0] in editor;
  }

  /** The worked example: editor [c3, c2, c1, base], trunk [t2, t1, base]. */
  lemma WorkedExample()
    ensures Additional(["c3", "c2", "c1", "base"], ["t2", "t1", "base"]) == 3
    ensures Additional(["t2", "t1", "base"], ["c3", "c2", "c1", "base"]) == 2
  {
    var editor, trunk := ["c3", "c2", "c1", "base"], ["t2", "t1", "base"];
    assert editor[3] == trunk[2];
    assert "c3" !in trunk && "c2" !in trunk && "c1" !in trunk;
    assert "t2" !in editor && "t1" !in editor;
    AdditionalIsUnique(editor, trunk, 3);
    AdditionalIsUnique(trunk, editor, 2);
  }
}
