/**
 * The list operations behind the buttons next to each selected file:
 * remove an entry, move it one place up, move it one place down.  Each
 * produces a new list from the previous one; the entries themselves are
 * never changed.
 */
module FileList {

  /**
   * The entries of `files` whose position, counted from `from`, differs from
   * `index`: the position filter `prev.filter((_, i) => i !== index)`.
   */
  function KeepOthers<T>(files: seq<T>, index: int, from: int): seq<T>
    decreases |files|
  {
    if files == [] then []
    else (if from == index then [] else [files[0]]) + KeepOthers(files[1..], index, from + 1)
  }

  /** `removeFile(index)`: every entry except the one at position `index`. */
  function Remove<T>(files: seq<T>, index: int): seq<T>
  {
    KeepOthers(files, index, 0)
  }

  lemma {:induction false} KeepOthersSlices<T>(files: seq<T>, index: int, from: int)
    ensures KeepOthers(files, index, from)
            == if from <= index < from + |files|
               then files[..index - from] + files[index - from + 1..]
               else files
    decreases |files|
  {
    if files != [] {
      KeepOthersSlices(files[1..], index, from + 1);
      if from < index < from + |files| {
        assert files[1..][..index - from - 1] == files[1..index - from];
        assert files[1..][index - from..] == files[index - from + 1..];
        assert [files[0]] + files[1..index - from] == files[..index - from];
      } else if from == index {
        assert files[..0] + files[1..] == files[1..];
      } else {
        assert [files[0]] + files[1..] == files;
      }
    }
  }

  /**
   * Removing a position inside the list drops exactly that entry and keeps
   * the others in order; any other index matches no position and leaves the
   * list as it was.
   */
  lemma RemoveSpec<T>(files: seq<T>, index: int)
    ensures 0 <= index < |files| ==> Remove(files, index) == files[..index] + files[index + 1..]
    ensures !(0 <= index < |files|) ==> Remove(files, index) == files
  {
    KeepOthersSlices(files, index, 0);
  }

  /** Removing a valid position shortens the list by one and loses only that entry. */
  lemma RemoveDropsOne<T>(files: seq<T>, index: int)
    requires 0 <= index < |files|
    ensures |Remove(files, index)| == |files| - 1
    ensures multiset(Remove(files, index)) + multiset{files[index]} == multiset(files)
  {
    RemoveSpec(files, index);
    assert files == files[..index] + [files[index]] + files[index + 1..];
  }

  /** `r` is `s` with the neighbours at positions `k` and `k + 1` exchanged. */
  ghost predicate SwappedAt<T>(s: seq<T>, r: seq<T>, k: int)
  {
    0 <= k < |s| - 1 && |r| == |s| &&
    r[k] == s[k + 1] && r[k + 1] == s[k] &&
    forall j :: 0 <= j < |s| && j != k && j != k + 1 ==> r[j] == s[j]
  }

  /** A swap of neighbours cuts the list into the same three parts, with the middle pair reversed. */
  lemma SwappedAtSplits<T>(s: seq<T>, r: seq<T>, k: int)
    requires SwappedAt(s, r, k)
    ensures s == s[..k] + [s[k], s[k + 1]] + s[k + 2..]
    ensures r == s[..k] + [s[k + 1], s[k]] + s[k + 2..]
    ensures multiset(r) == multiset(s)
  {
    assert s == s[..k] + [s[k], s[k + 1]] + s[k + 2..];
    assert r == s[..k] + [s[k + 1], s[k]] + s[k + 2..];
  }

  /**
   * `moveFileUp(index)`: nothing happens at index 0; otherwise the entry
   * changes places with the one before it.  The buttons only pass positions
   * of the list, and index 0 is accepted on any list.
   */
  function MoveUp<T>(files: seq<T>, index: int): (r: seq<T>)
    requires index == 0 || 0 < index < |files|
    ensures index == 0 ==> r == files
    ensures index != 0 ==> SwappedAt(files, r, index - 1)
    ensures multiset(r) == multiset(files)
  {
    if index == 0 then files
    else
      var r := files[index - 1 := files[index]][index := files[index - 1]];
      SwappedAtSplits(files, r, index - 1);
      r
  }

  /**
   * `moveFileDown(index)`: nothing happens at the last position (checked
   * against the current list length); otherwise the entry changes places
   * with the one after it.
   */
  function MoveDown<T>(files: seq<T>, index: int): (r: seq<T>)
    requires index == |files| - 1 || 0 <= index < |files| - 1
    ensures index == |files| - 1 ==> r == files
    ensures index != |files| - 1 ==> SwappedAt(files, r, index)
    ensures multiset(r) == multiset(files)
  {
    if index == |files| - 1 then files
    else
      var r := files[index := files[index + 1]][index + 1 := files[index]];
      SwappedAtSplits(files, r, index);
      r
  }

  /** Both buttons exchange the same pair: moving entry `i` down is moving entry `i + 1` up. */
  lemma MoveDownIsMoveUpOfNext<T>(files: seq<T>, index: int)
    requires 0 <= index < |files| - 1
    ensures MoveDown(files, index) == MoveUp(files, index + 1)
  {
  }

  /** Moving an entry down undoes moving it up. */
  lemma MoveDownUndoesMoveUp<T>(files: seq<T>, index: int)
    requires 0 < index < |files|
    ensures MoveDown(MoveUp(files, index), index - 1) == files
  {
  }

  /** Moving an entry up undoes moving it down. */
  lemma MoveUpUndoesMoveDown<T>(files: seq<T>, index: int)
    requires 0 <= index < |files| - 1
    ensures MoveUp(MoveDown(files, index), index + 1) == files
  {
  }
}
