/** `DataBlock` and `get_all_data_blocks` of replay.py: a data block is the longest run of
    diff rows after a cursor that chain into each other, together with the ids of the stored
    snapshots that fall inside it. The rows are the `(first_update_id, final_update_id)` pairs
    the block's query returns, in its `ORDER BY first_update_id` order. */
module DataBlocks {
  import opened Rows
  import opened Seqs
  import opened Replay

  /** A `(first_update_id, final_update_id)` row. */
  type Row = (nat, nat)

  /** The block query: `first_update_id > cursor`. */
  function RowsAfter(rows: seq<Row>, cursor: int): seq<Row> {
    Filter(rows, (r: Row) => r.0 > cursor)
  }

  /** The scan's test between consecutive rows: a previous final id of 0 is falsy under
      `if prev_update_id:`, so the next row is taken as a new beginning instead of being
      checked. */
  predicate Linked(prev: Row, next: Row) {
    prev.1 == 0 || prev.1 + 1 == next.0
  }

  /** The number of rows the scan keeps, counting on from the i-th row. */
  function ChainFrom(rs: seq<Row>, i: nat): (n: nat)
    requires 1 <= i <= |rs|
    ensures i <= n <= |rs|
    decreases |rs| - i
  {
    if i == |rs| || !Linked(rs[i - 1], rs[i]) then i else ChainFrom(rs, i + 1)
  }

  /** The `size` of the block: the length of the prefix the scan keeps. */
  function ChainLength(rs: seq<Row>): nat {
    if |rs| == 0 then 0 else ChainFrom(rs, 1)
  }

  lemma {:induction false} ChainFromSpec(rs: seq<Row>, i: nat)
    requires 1 <= i <= |rs|
    requires forall k :: 0 < k < i ==> Linked(rs[k - 1], rs[k])
    ensures var n := ChainFrom(rs, i);
      && (forall k :: 0 < k < n ==> Linked(rs[k - 1], rs[k]))
      && (n < |rs| ==> !Linked(rs[n - 1], rs[n]))
    decreases |rs| - i
  {
    if i < |rs| && Linked(rs[i - 1], rs[i]) {
      ChainFromSpec(rs, i + 1);
    }
  }

  /** The kept prefix is the longest one whose consecutive rows are linked: empty only for
      no rows, every link inside it holds, and the next row (if any) is not linked. */
  lemma ChainLengthSpec(rs: seq<Row>)
    ensures var n := ChainLength(rs);
      && n <= |rs|
      && (n == 0 <==> |rs| == 0)
      && (forall k :: 0 < k < n ==> Linked(rs[k - 1], rs[k]))
      && (0 < n < |rs| ==> !Linked(rs[n - 1], rs[n]))
  {
    if |rs| > 0 {
      ChainFromSpec(rs, 1);
    }
  }

  /** The row the block's `beginning_update_id` comes from, among the first n rows: the last
      one the scan took as a new beginning (the first row, or one after a final id of 0). */
  function Restart(rs: seq<Row>, n: nat): (j: nat)
    requires 1 <= n <= |rs|
    ensures j < n && (j == 0 || rs[j - 1].1 == 0)
    ensures forall k :: j <= k < n - 1 ==> rs[k].1 != 0
  {
    if n == 1 then 0 else if rs[n - 2].1 == 0 then n - 1 else Restart(rs, n - 1)
  }

  /** The block's snapshot-id filter (replay.py:125-129): the ids `id` with
      `beginning <= id + 1 <= ending`, in their stored order. */
  function BlockSnapshotIds(ids: seq<nat>, beginning: nat, ending: nat): seq<nat> {
    Filter(ids, (id: nat) => beginning <= id + 1 <= ending)
  }

  /** A constructed `DataBlock`: `Empty` when the scan finds no row (then `size` is 0 and
      neither `beginning_update_id` nor `block_snapshot_ids` is ever set). */
  datatype DataBlock =
    | Empty
    | Block(size: nat, beginningUpdateId: nat, endingUpdateId: nat, blockSnapshotIds: seq<nat>)

  /** The block the scan builds from rows `rs`. */
  function BlockOf(rs: seq<Row>, ids: seq<nat>): DataBlock {
    if |rs| == 0 then Empty
    else
      var n := ChainLength(rs);
      var b, e := rs[Restart(rs, n)].0, rs[n - 1].1;
      Block(n, b, e, BlockSnapshotIds(ids, b, e))
  }

  /** `DataBlock(symbol, last_update_id)`: the scan of replay.py:86-102 over the rows after
      the cursor, then the snapshot-id filter. `snapshotIds` stands for what
      `get_snapshots_update_ids` returns. */
  method NewDataBlock(rows: seq<Row>, lastUpdateId: int, snapshotIds: seq<nat>) returns (b: DataBlock)
    ensures b == BlockOf(RowsAfter(rows, lastUpdateId), snapshotIds)
  {
    var rs := RowsAfter(rows, lastUpdateId);
    var prevUpdateId: Option<nat> := None;
    var size := 0;
    var beginning := 0;
    var ending: Option<nat> := None;
    var broke := false;
    var i := 0;
    while i < |rs|
      invariant 0 <= i <= |rs|
      invariant !broke && ending.None? && size == i
      invariant i == 0 <==> prevUpdateId.None?
      invariant i > 0 ==> prevUpdateId == Some(rs[i - 1].1) && beginning == rs[Restart(rs, i)].0
      invariant i > 0 ==> ChainFrom(rs, i) == ChainLength(rs)
    {
      var row := rs[i];
      size := size + 1;
      if prevUpdateId.Some? && prevUpdateId.value != 0 {
        var (first, final) := row;
        if prevUpdateId.value + 1 != first {
          ending := Some(prevUpdateId.value);
          size := size - 1;
          broke := true;
          break;
        } else {
          prevUpdateId := Some(final);
        }
      } else {
        var (first, final) := row;
        beginning := first;
        prevUpdateId := Some(final);
      }
      i := i + 1;
    }
    // the `else` of the `for` loop: no break
    if !broke {
      ending := prevUpdateId;
    }
    if ending.None? {
      return Empty;
    }
    b := Block(size, beginning, ending.value, BlockSnapshotIds(snapshotIds, beginning, ending.value));
  }

  /** When no row has a final id of 0 (so `if prev_update_id:` never sees a falsy id), a
      block is exactly the longest prefix of the rows in which each row's first id is the
      previous row's final id + 1: it begins at the first row's first id and ends at the
      final id of its last row. */
  lemma ContiguousBlock(rs: seq<Row>, ids: seq<nat>)
    requires forall k :: 0 <= k < |rs| ==> rs[k].1 != 0
    ensures var b := BlockOf(rs, ids);
      && (b.Empty? <==> |rs| == 0)
      && (b.Block? ==>
            && 1 <= b.size <= |rs|
            && b.beginningUpdateId == rs[0].0
            && b.endingUpdateId == rs[b.size - 1].1
            && (forall k :: 0 < k < b.size ==> rs[k - 1].1 + 1 == rs[k].0)
            && (b.size < |rs| ==> rs[b.size - 1].1 + 1 != rs[b.size].0))
  {
    ChainLengthSpec(rs);
    if |rs| > 0 {
      var n := ChainLength(rs);
      var j := Restart(rs, n);
      assert j == 0;
    }
  }

  /** The snapshot ids of a block are exactly the stored ids `id` with
      `beginning <= id + 1 <= ending`. */
  lemma BlockSnapshotIdsMembers(ids: seq<nat>, beginning: nat, ending: nat)
    ensures var r := BlockSnapshotIds(ids, beginning, ending);
      && (forall i :: 0 <= i < |r| ==> r[i] in ids && beginning <= r[i] + 1 <= ending)
      && (forall i :: 0 <= i < |ids| && beginning <= ids[i] + 1 <= ending ==> ids[i] in r)
  {
    FilterMembers(ids, (id: nat) => beginning <= id + 1 <= ending);
  }

  /** Rows after a non-negative cursor with first id <= final id chain strictly upwards, so
      a non-empty block begins after the cursor and ends at or after its beginning. */
  lemma BlockAfterCursor(rows: seq<Row>, cursor: int, ids: seq<nat>)
    requires cursor >= 0
    requires forall k :: 0 <= k < |rows| ==> rows[k].0 <= rows[k].1
    ensures var rs, b := RowsAfter(rows, cursor), BlockOf(RowsAfter(rows, cursor), ids);
      b.Block? ==> cursor < rs[0].0 == b.beginningUpdateId <= b.endingUpdateId
  {
    var rs := RowsAfter(rows, cursor);
    FilterMembers(rows, (r: Row) => r.0 > cursor);
    forall k | 0 <= k < |rs| ensures cursor < rs[k].0 <= rs[k].1 {
      var j :| 0 <= j < |rows| && rows[j] == rs[k];
    }
    if |rs| > 0 {
      ContiguousBlock(rs, ids);
      var n := ChainLength(rs);
      ChainUpwards(rs, n - 1);
    }
  }

  lemma {:induction false} ChainUpwards(rs: seq<Row>, m: nat)
    requires m < |rs|
    requires forall k :: 0 <= k < |rs| ==> rs[k].0 <= rs[k].1
    requires forall k :: 0 < k <= m ==> rs[k - 1].1 + 1 == rs[k].0
    ensures rs[0].0 <= rs[m].1
  {
    if m > 0 {
      ChainUpwards(rs, m - 1);
    }
  }

  /** The cursor the next block is built from: the id `get_all_data_blocks` started from, or
      the previous block's ending id. */
  function NextCursor(lastUpdateId: int, bs: seq<DataBlock>): int
    requires |bs| > 0 ==> bs[|bs| - 1].Block?
  {
    if |bs| == 0 then lastUpdateId else bs[|bs| - 1].endingUpdateId
  }

  /** `bs` are the blocks built one after another from `lastUpdateId`: each is the block of the
      rows after the previous one's ending id, and each begins after that ending id. */
  ghost predicate BlockChain(rows: seq<Row>, lastUpdateId: int, snapshotIds: seq<nat>, bs: seq<DataBlock>) {
    && (forall k :: 0 <= k < |bs| ==> bs[k].Block?)
    && (|bs| > 0 ==> bs[0] == BlockOf(RowsAfter(rows, lastUpdateId), snapshotIds))
    && (forall k :: 0 < k < |bs| ==> bs[k] == BlockOf(RowsAfter(rows, bs[k - 1].endingUpdateId), snapshotIds))
    && (forall k :: 0 < k < |bs| ==> bs[k - 1].endingUpdateId < bs[k].beginningUpdateId <= bs[k].endingUpdateId)
  }

  lemma BlockChainSnoc(rows: seq<Row>, lastUpdateId: int, snapshotIds: seq<nat>, bs: seq<DataBlock>, b: DataBlock)
    requires BlockChain(rows, lastUpdateId, snapshotIds, bs)
    requires b.Block? && b == BlockOf(RowsAfter(rows, NextCursor(lastUpdateId, bs)), snapshotIds)
    requires |bs| > 0 ==> bs[|bs| - 1].endingUpdateId < b.beginningUpdateId <= b.endingUpdateId
    ensures BlockChain(rows, lastUpdateId, snapshotIds, bs + [b])
  {
    var r := bs + [b];
    assert forall k :: 0 <= k < |bs| ==> r[k] == bs[k];
  }

  /** `get_all_data_blocks` (replay.py:162-170): blocks are built one after another, each from
      the rows after the previous block's ending id, until an empty one. The source loops
      forever on a row whose final id is below its first id, which the precondition rules out. */
  method GetAllDataBlocks(rows: seq<Row>, lastUpdateId: int, snapshotIds: seq<nat>) returns (datablocks: seq<DataBlock>)
    requires lastUpdateId >= 0
    requires forall k :: 0 <= k < |rows| ==> rows[k].0 <= rows[k].1
    ensures forall k :: 0 <= k < |datablocks| ==> datablocks[k].Block?
    ensures |datablocks| > 0 ==> datablocks[0] == BlockOf(RowsAfter(rows, lastUpdateId), snapshotIds)
    ensures forall k :: 0 < k < |datablocks| ==>
      datablocks[k] == BlockOf(RowsAfter(rows, datablocks[k - 1].endingUpdateId), snapshotIds)
    ensures forall k :: 0 < k < |datablocks| ==>
      datablocks[k - 1].endingUpdateId < datablocks[k].beginningUpdateId <= datablocks[k].endingUpdateId
    ensures BlockOf(RowsAfter(rows, NextCursor(lastUpdateId, datablocks)), snapshotIds).Empty?
  {
    datablocks := [];
    var cursor: nat := lastUpdateId;
    var curBlock := NewDataBlock(rows, cursor, snapshotIds);
    while curBlock.Block?
      invariant BlockChain(rows, lastUpdateId, snapshotIds, datablocks)
      invariant cursor == NextCursor(lastUpdateId, datablocks)
      invariant curBlock == BlockOf(RowsAfter(rows, cursor), snapshotIds)
      decreases |RowsAfter(rows, cursor)|
    {
      BlockAfterCursor(rows, cursor, snapshotIds);
      NextCursorShrinks(rows, cursor, curBlock.endingUpdateId);
      BlockChainSnoc(rows, lastUpdateId, snapshotIds, datablocks, curBlock);
      datablocks := datablocks + [curBlock];
      cursor := curBlock.endingUpdateId;
      curBlock := NewDataBlock(rows, cursor, snapshotIds);
    }
  }

  /** Moving the cursor to a block's ending id drops at least the block's first row. */
  lemma NextCursorShrinks(rows: seq<Row>, cursor: nat, ending: nat)
    requires |RowsAfter(rows, cursor)| > 0 && RowsAfter(rows, cursor)[0].0 <= ending
    ensures |RowsAfter(rows, ending)| < |RowsAfter(rows, cursor)|
  {
    var f, g := (r: Row) => r.0 > cursor, (r: Row) => r.0 > ending;
    FilterMembers(rows, f);
    var x := RowsAfter(rows, cursor)[0];
    FilterShrinks(rows, f, g, x);
  }

  /** `fetch_partial_book` (replay.py:132-144): the partial generator from the block's
      beginning id - 1. On a block that found no rows `beginning_update_id` was never set
      and the call fails with AttributeError, modelled as None. */
  method FetchPartialBook(block: DataBlock, level: int, snapshots: seq<DepthSnapshot>, diffs: seq<DiffDepthStream>)
    returns (r: Option<seq<PartialBook>>)
    ensures r.None? <==> block.Empty?
    ensures block.Block? ==> r == Some(ProjectAll(Reconstruct(block.beginningUpdateId - 1, snapshots, diffs), level))
  {
    if block.Empty? {
      return None;
    }
    var books, _ := PartialOrderbookGenerator(block.beginningUpdateId - 1, level, snapshots, diffs);
    r := Some(books);
  }

  /** The first book fetched for a block is a snapshot with an id at or after the block's
      beginning id; so a snapshot whose id is exactly the beginning id - 1, which the block
      lists among its snapshot ids, is never the one the fetch starts from. */
  lemma FetchStartsAtBeginning(block: DataBlock, snapshots: seq<DepthSnapshot>, diffs: seq<DiffDepthStream>)
    requires block.Block?
    ensures var r := Reconstruct(block.beginningUpdateId - 1, snapshots, diffs);
      |r| > 0 ==> r[0].lastUpdateId >= block.beginningUpdateId
  {
    var cursor := block.beginningUpdateId - 1;
    FilterMembers(snapshots, (s: DepthSnapshot) => s.lastUpdateId > cursor);
    var qs := SnapshotsAfter(snapshots, cursor);
    if |qs| > 0 {
      assert qs[0].lastUpdateId > cursor;
    }
  }
}
