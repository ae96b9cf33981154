/** The plain FIFO queue that a producer's queue refines. */
module Fifo {
  type Item = int

  datatype Op = Put(item: Item) | Take(count: nat) | Nothing

  function Apply(s: seq<Item>, op: Op): seq<Item>
    requires op.Take? ==> op.count <= |s|
  {
    match op
    case Put(item) => s + [item]
    case Take(n) => s[n..]
    case Nothing => s
  }

  /** What `op` adds to the items put in. */
  function Added(op: Op): seq<Item> { if op.Put? then [op.item] else [] }

  /** A window of a growing sequence of items that `op` moves is the queue that `op` changes,
      and everything below the window's end grows by what `op` adds. */
  lemma WindowMoves(items: seq<Item>, items': seq<Item>, head: nat, tail: nat, head': nat, tail': nat, op: Op)
    requires items <= items' && head <= tail <= |items|
    requires op.Put? ==> |items| == tail + 1 && items[tail] == op.item
    requires op.Take? ==> op.count <= tail - head
    requires tail' == tail + |Added(op)| && head' == head + (if op.Take? then op.count else 0)
    ensures head' <= tail' <= |items'| && items'[head'..tail'] == Apply(items[head..tail], op)
    ensures items'[..tail'] == items[..tail] + Added(op)
  {
    assert items'[..tail] == items[..tail] && items'[head..tail] == items[head..tail];
    match op
    case Put(item) =>
      assert items'[tail] == item;
      assert items'[head..tail + 1] == items'[head..tail] + [item];
    case Take(n) =>
      assert items[head..tail][n..] == items[head + n..tail];
    case Nothing =>
  }
}
