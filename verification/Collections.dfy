/** What several models need of options, sets and maps. */
module Collections {
  datatype Option<T> = None | Some(value: T)

  /** Cell j of the block at `b`, if there is such a cell. */
  function CellIn<T>(cells: map<nat, seq<Option<T>>>, b: nat, j: int): Option<T> {
    if b in cells && 0 <= j < |cells[b]| then cells[b][j] else None
  }

  lemma SubsetSize<T>(a: set<T>, b: set<T>)
    requires a <= b
    ensures |a| <= |b|
    ensures |a| == |b| ==> a == b
  {
    assert b == a + (b - a);
  }
}
