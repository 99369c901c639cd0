/**
 * The target-folder list of `FolderPathInput`: adding a typed path (trimmed,
 * refused when empty, already listed or when the list is full) and removing
 * the path at an index. The component hands the new list to its parent
 * instead of changing the old one, so both operations are functions on the
 * list.
 */
module FolderPathInput {
  import opened Strings

  /** The `maxPaths` default. */
  const DefaultMaxPaths: int := 50

  /** Why `addPath` refused a path. */
  datatype Rejection = Empty | Duplicate | Full

  /** What `addPath` does: hands a new list on, or refuses and leaves the list as it is. */
  datatype AddResult = Added(paths: seq<string>) | Rejected(reason: Rejection)

  /** The list after an add: the new one, or the old one when the add was refused. */
  function ListAfter(paths: seq<string>, r: AddResult): seq<string>
  {
    if r.Added? then r.paths else paths
  }

  /**
   * `addPath(rawPath)`: the trimmed path is refused when it is empty, when
   * the list already holds it, or when the list holds `maxPaths` paths or
   * more, tested in that order; otherwise it is appended.
   */
  function AddPath(paths: seq<string>, maxPaths: int, rawPath: string): (r: AddResult)
    ensures r == Rejected(Empty) <==> AllWhiteSpace(rawPath)
    ensures r == Rejected(Duplicate) <==> !AllWhiteSpace(rawPath) && Trim(rawPath) in paths
    ensures r == Rejected(Full) <==> !AllWhiteSpace(rawPath) && Trim(rawPath) !in paths && |paths| >= maxPaths
    ensures r.Added? ==> r.paths == paths + [Trim(rawPath)] && |paths| < maxPaths
  {
    var trimmed := Trim(rawPath);
    TrimEmpty(rawPath);
    if trimmed == "" then Rejected(Empty)
    else if trimmed in paths then Rejected(Duplicate)
    else if |paths| >= maxPaths then Rejected(Full)
    else Added(paths + [trimmed])
  }

  /**
   * `handleRemovePath(index)`: `paths.filter((_, i) => i !== index)`, one
   * element at a time with the index shifted along; an index outside the
   * list removes nothing.
   */
  function RemovePath(paths: seq<string>, index: int): (r: seq<string>)
    ensures 0 <= index < |paths| ==> r == paths[..index] + paths[index + 1..]
    ensures !(0 <= index < |paths|) ==> r == paths
  {
    if |paths| == 0 then []
    else
      var rest := RemovePath(paths[1..], index - 1);
      if index == 0 then rest
      else if 0 < index < |paths| then
        assert paths[..index] == [paths[0]] + paths[1..][..index - 1];
        assert paths[index + 1..] == paths[1..][index..];
        [paths[0]] + rest
      else [paths[0]] + rest
  }

  /** No path occurs twice. */
  predicate NoDuplicates(paths: seq<string>)
  {
    forall i, j :: 0 <= i < j < |paths| ==> paths[i] != paths[j]
  }

  /** Every path is trimmed and non-empty. */
  predicate AllTrimmed(paths: seq<string>)
  {
    forall i :: 0 <= i < |paths| ==> paths[i] != "" && Trim(paths[i]) == paths[i]
  }

  /** What the component keeps true of the list: no duplicates, no untrimmed or empty path, at most `maxPaths`. */
  predicate Valid(paths: seq<string>, maxPaths: int)
  {
    NoDuplicates(paths) && AllTrimmed(paths) && |paths| <= maxPaths
  }

  /** Adding keeps the list valid, whether the add succeeds or not. */
  lemma AddPreservesValid(paths: seq<string>, maxPaths: int, rawPath: string)
    requires Valid(paths, maxPaths)
    ensures Valid(ListAfter(paths, AddPath(paths, maxPaths, rawPath)), maxPaths)
  {
    var r := AddPath(paths, maxPaths, rawPath);
    if r.Added? {
      var t := Trim(rawPath);
      TrimIdempotent(rawPath);
      TrimEmpty(rawPath);
      var q := paths + [t];
      assert r.paths == q;
      forall i, j | 0 <= i < j < |q| ensures q[i] != q[j] {
        if j == |paths| {
          assert q[i] == paths[i];
        }
      }
    }
  }

  /** A successful add changes nothing but the new last element. */
  lemma AddKeepsOthers(paths: seq<string>, maxPaths: int, rawPath: string)
    requires AddPath(paths, maxPaths, rawPath).Added?
    ensures |AddPath(paths, maxPaths, rawPath).paths| == |paths| + 1
    ensures forall i :: 0 <= i < |paths| ==> AddPath(paths, maxPaths, rawPath).paths[i] == paths[i]
    ensures AddPath(paths, maxPaths, rawPath).paths[|paths|] == Trim(rawPath)
  {
  }

  /** White space around the typed text makes no difference. */
  lemma AddIgnoresSurroundingSpace(paths: seq<string>, maxPaths: int, rawPath: string)
    ensures AddPath(paths, maxPaths, Trim(rawPath)) == AddPath(paths, maxPaths, rawPath)
  {
    TrimIdempotent(rawPath);
    TrimEmpty(rawPath);
    TrimEmpty(Trim(rawPath));
  }

  /** Adding the same text twice: the second add is refused as a duplicate. */
  lemma AddTwiceIsDuplicate(paths: seq<string>, maxPaths: int, rawPath: string)
    requires AddPath(paths, maxPaths, rawPath).Added?
    ensures AddPath(AddPath(paths, maxPaths, rawPath).paths, maxPaths, rawPath) == Rejected(Duplicate)
  {
    var q := AddPath(paths, maxPaths, rawPath).paths;
    assert q[|paths|] == Trim(rawPath);
  }

  /** Removing the path just added gives the list back. */
  lemma RemoveUndoesAdd(paths: seq<string>, maxPaths: int, rawPath: string)
    requires AddPath(paths, maxPaths, rawPath).Added?
    ensures RemovePath(AddPath(paths, maxPaths, rawPath).paths, |paths|) == paths
  {
    var q := AddPath(paths, maxPaths, rawPath).paths;
    assert q[..|paths|] == paths;
  }

  /** Element `i` of the shortened list is element `i` of the list, or `i + 1` from the removed index on. */
  lemma RemovedAt(paths: seq<string>, index: nat, i: nat)
    requires index < |paths| && i < |paths| - 1
    ensures RemovePath(paths, index)[i] == paths[if i < index then i else i + 1]
  {
    if i < index {
      assert RemovePath(paths, index)[i] == paths[..index][i];
    } else {
      assert RemovePath(paths, index)[i] == paths[index + 1..][i - index];
    }
  }

  /** Removing keeps the list valid. */
  lemma RemovePreservesValid(paths: seq<string>, maxPaths: int, index: int)
    requires Valid(paths, maxPaths)
    ensures Valid(RemovePath(paths, index), maxPaths)
  {
    if 0 <= index < |paths| {
      var r := RemovePath(paths, index);
      forall i | 0 <= i < |r| ensures r[i] != "" && Trim(r[i]) == r[i] {
        RemovedAt(paths, index, i);
      }
      forall i, j | 0 <= i < j < |r| ensures r[i] != r[j] {
        RemovedAt(paths, index, i);
        RemovedAt(paths, index, j);
      }
    }
  }

  /** Removing an index in range takes away one occurrence of the path there and keeps all others. */
  lemma RemoveTakesOne(paths: seq<string>, index: int)
    requires 0 <= index < |paths|
    ensures multiset(RemovePath(paths, index)) + multiset{paths[index]} == multiset(paths)
  {
    SplitAround(paths, index);
  }

  /** A sequence is what lies before position `k`, the element there, and what follows. */
  lemma SplitAround<T>(s: seq<T>, k: nat)
    requires k < |s|
    ensures multiset(s[..k] + s[k + 1..]) + multiset{s[k]} == multiset(s)
  {
    assert s == s[..k] + [s[k]] + s[k + 1..];
  }

  /** In a valid list, the removed path no longer occurs. */
  lemma RemoveDropsPath(paths: seq<string>, maxPaths: int, index: int)
    requires Valid(paths, maxPaths) && 0 <= index < |paths|
    ensures paths[index] !in RemovePath(paths, index)
  {
    var r := RemovePath(paths, index);
    forall i | 0 <= i < |r| ensures r[i] != paths[index] {
      RemovedAt(paths, index, i);
    }
  }
}
